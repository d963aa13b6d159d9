/**
 * `FacebookProvider`: the OAuth flow with Facebook's names. The state lives in the
 * `facebook_auth_state` cookie, keys are FACEBOOK keys identified by the profile's `id`, and
 * `first_name`, `last_name` and `picture?.data?.url` fill the first name, last name and photo.
 */
module FacebookProviders {
  import opened Common
  import opened AuthTypes
  import opened UserManagers
  import opened KeyManagers
  import opened SessionManagers
  import opened OAuth

  const FacebookAuthCookieName := "facebook_auth_state"

  datatype PictureData = PictureData(url: Option<string>)
  datatype Picture = Picture(data: Option<PictureData>)

  /** The fields of Facebook's `/me` answer that the flow reads; any of them may be missing. */
  datatype FacebookUser = FacebookUser(id: Option<string>, email: Option<string>, firstName: Option<string>,
                                       lastName: Option<string>, picture: Option<Picture>)

  /** `facebookUser.picture?.data?.url`: missing as soon as one link of the chain is. */
  function PictureUrl(f: FacebookUser): (url: Option<string>)
    ensures url.Some? <==> f.picture.Some? && f.picture.value.data.Some? && f.picture.value.data.value.url.Some?
    ensures url.Some? ==> url == f.picture.value.data.value.url
  {
    if f.picture.Some? && f.picture.value.data.Some? then f.picture.value.data.value.url else None
  }

  /** How Facebook's answer feeds the flow. */
  function FacebookProfile(f: FacebookUser): Profile {
    Profile(f.id, f.email, f.firstName, f.lastName, PictureUrl(f))
  }

  /**
   * A new Facebook user gets the email, first and last names and picture url, with missing
   * or empty ones stored as null, and the key is identified by `id`.
   */
  lemma FacebookNewUserFields(f: FacebookUser)
    ensures var n := NewUserFields(FacebookProfile(f));
            && n.email == Present(OrNull(f.email)) && n.firstName == Present(OrNull(f.firstName))
            && n.lastName == Present(OrNull(f.lastName))
            && n.photoUrl == Present(OrNull(PictureUrl(f)))
            && FacebookProfile(f).id == f.id
  {
  }

  /** The backfill takes the email, names and picture url, and only into empty fields. */
  lemma FacebookBackfill(u: User, f: FacebookUser)
    ensures var b := Backfill(u, FacebookProfile(f));
            && (b.email.Present? <==> !Truthy(u.email) && Truthy(f.email))
            && (b.firstName.Present? <==> !Truthy(u.firstName) && Truthy(f.firstName))
            && (b.lastName.Present? <==> !Truthy(u.lastName) && Truthy(f.lastName))
            && (b.photoUrl.Present? <==> !Truthy(u.photoUrl) && Truthy(PictureUrl(f)))
  {
  }

  /** `new FacebookProvider(user, key, session, appId, appSecret, redirectUri)`. */
  method NewFacebookProvider(user: UserManager, key: KeyManager, session: SessionManager, appId: string,
                             appSecret: string, redirectUri: string) returns (p: OAuthProvider)
    requires user.adapter.db == key.adapter.db == session.adapter.db
    ensures fresh(p) && p.Wired() && p.db == user.adapter.db
    ensures p.user == user && p.key == key && p.session == session
    ensures p.clientId == appId && p.clientSecret == appSecret && p.redirectUri == redirectUri
    ensures p.authCookieName == FacebookAuthCookieName && p.kind == FACEBOOK
  {
    p := new OAuthProvider(user, key, session, appId, appSecret, redirectUri, FacebookAuthCookieName, FACEBOOK);
  }
}
