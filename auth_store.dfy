/**
 * The client's `auth` store: who is signed in, the status and error of the last auth
 * request, and which operation it was. Every change goes through `mutate`, which tells the
 * `onAuthStateChange` subscribers, and the error reporter's user, only when someone signs in
 * or out. What each request answered is an input.
 */
module AuthStore {
  import opened Common
  import opened AuthTypes
  import opened SharedTypes
  import opened SharedHelpers

  datatype AuthOperation =
    | SIGN_IN | SIGN_UP_ANON | SIGN_UP | SIGN_OUT | PASSWORD_RESET_REQUEST | PASSWORD_RESET
    | FETCH_ME | GOOGLE | FACEBOOK | DELETE | UPDATE

  /** The store's `State`. */
  datatype AuthState = AuthState(user: Option<User>, status: AsyncOperationStatus, error: Option<RequestHelperError>,
                                 operation: Option<AuthOperation>)

  /** `initialValue`: nobody signed in, idle. */
  const InitialState := AuthState(None, IDLE, None, None)

  /**
   * `Partial<State>`: `Absent` is a key the caller left out, `Present(None)` a key set to
   * `null` or `undefined` (both of which the spread copies).
   */
  datatype AuthPatch = AuthPatch(user: Field<Option<User>>, status: Field<AsyncOperationStatus>,
                                 error: Field<Option<RequestHelperError>>, operation: Field<Option<AuthOperation>>)
  {
    /** `{...prevState, ...state}`. */
    function ApplyTo(s: AuthState): AuthState {
      AuthState(user.Or(s.user), status.Or(s.status), error.Or(s.error), operation.Or(s.operation))
    }
  }

  /** The patch `mutate(initialValue)` applies: every key of the initial state. */
  const ResetPatch := AuthPatch(Present(None), Present(IDLE), Present(None), Present(None))

  /** The merged state has exactly the given fields of the patch and the old value of every other. */
  lemma MergeOverridesGivenFields(p: AuthPatch, s: AuthState)
    ensures var r := p.ApplyTo(s);
            && r.user == (if p.user.Present? then p.user.value else s.user)
            && r.status == (if p.status.Present? then p.status.value else s.status)
            && r.error == (if p.error.Present? then p.error.value else s.error)
            && r.operation == (if p.operation.Present? then p.operation.value else s.operation)
  {
  }

  /** Resetting gives the initial state, whatever the state was. */
  lemma ResetRestoresInitial(s: AuthState)
    ensures ResetPatch.ApplyTo(s) == InitialState
  {
  }

  /**
   * `mutate` notifies when `user` is supplied and whether someone is signed in changes: from
   * nobody to someone or from someone to nobody.
   */
  predicate Flips(prev: AuthState, p: AuthPatch) {
    p.user.Present? && prev.user.Some? != p.user.value.Some?
  }

  /** Replacing one signed-in user by another, or nobody by nobody, notifies no one. */
  lemma SameAuthenticationNotifiesNoOne(prev: AuthState, p: AuthPatch)
    requires p.user.Present? ==> prev.user.Some? == p.user.value.Some?
    ensures !Flips(prev, p)
  {
  }

  /** A callback registered with `onAuthStateChange`, by identity. */
  type Callback = nat

  /** One call `subscriber(nextState.user)`. */
  datatype Notification = Notification(subscriber: Callback, user: Option<User>)

  /** The calls `subscribers.forEach(subscriber => subscriber(user))` makes, in order. */
  function Notifications(subscribers: seq<Callback>, user: Option<User>): (r: seq<Notification>)
    ensures |r| == |subscribers|
    ensures forall i :: 0 <= i < |r| ==> r[i] == Notification(subscribers[i], user)
    decreases |subscribers|
  {
    if subscribers == [] then []
    else Notifications(subscribers[..|subscribers| - 1], user) + [Notification(subscribers[|subscribers| - 1], user)]
  }

  /** What the error reporter is told about the user (`setUser`). */
  datatype ReportedUser = ReportedUser(id: int, email: Option<string>, firstName: Option<string>,
                                       lastName: Option<string>, username: Option<string>)

  /**
   * The reported user: an empty email is left out, and the username is first and last name
   * joined by a space when both are non-empty.
   */
  function Reported(u: User): (r: ReportedUser)
    ensures r.id == u.id && r.firstName == u.firstName && r.lastName == u.lastName
    ensures r.email.Some? <==> Truthy(u.email)
    ensures r.email.Some? ==> r.email == u.email
    ensures r.username.Some? <==> Truthy(u.firstName) && Truthy(u.lastName)
    ensures r.username.Some? ==> r.username.value == u.firstName.value + " " + u.lastName.value
  {
    ReportedUser(u.id, if Truthy(u.email) then u.email else None, u.firstName, u.lastName,
                 if Truthy(u.firstName) && Truthy(u.lastName) then Some(u.firstName.value + " " + u.lastName.value) else None)
  }

  /** The first index of `cb` in `s`, or -1: `indexOf`. */
  function IndexOf(s: seq<Callback>, cb: Callback): (r: int)
    ensures -1 <= r < |s|
    ensures r == -1 <==> cb !in s
    ensures r >= 0 ==> s[r] == cb && forall j :: 0 <= j < r ==> s[j] != cb
  {
    if s == [] then -1
    else if s[0] == cb then 0
    else
      var rest := IndexOf(s[1..], cb);
      assert forall j :: 1 <= j < |s| ==> s[j] == s[1..][j - 1];
      if rest == -1 then -1 else rest + 1
  }

  /** The subscribers after the unsubscribe of `cb`: its first occurrence removed, if any. */
  function RemoveFirst(s: seq<Callback>, cb: Callback): (r: seq<Callback>)
    ensures cb !in s ==> r == s
    ensures cb in s ==> |r| == |s| - 1
    ensures multiset(r) == multiset(s) - multiset{cb}
  {
    var i := IndexOf(s, cb);
    if i == -1 then s
    else
      assert s == s[..i] + [s[i]] + s[i + 1..];
      s[..i] + s[i + 1..]
  }

  /** Unsubscribing right after subscribing restores the subscriber list of a new callback. */
  lemma SubscribeThenUnsubscribe(s: seq<Callback>, cb: Callback)
    requires cb !in s
    ensures RemoveFirst(s + [cb], cb) == s
  {
    assert IndexOf(s + [cb], cb) == |s| by {
      assert (s + [cb])[|s|] == cb;
      assert forall j :: 0 <= j < |s| ==> (s + [cb])[j] == s[j];
    }
    assert (s + [cb])[..|s|] == s;
  }

  /** Unsubscribing keeps the order of the callbacks that stay. */
  lemma RemoveFirstKeepsOrder(s: seq<Callback>, cb: Callback)
    requires cb in s
    ensures exists i :: 0 <= i < |s| && s[i] == cb && RemoveFirst(s, cb) == s[..i] + s[i + 1..]
                        && forall j :: 0 <= j < i ==> s[j] != cb
  {
    var i := IndexOf(s, cb);
    assert RemoveFirst(s, cb) == s[..i] + s[i + 1..];
  }

  class Auth {
    /** The store's value. */
    var state: AuthState
    /** `onAuthStateChangeSubscribers`. */
    var subscribers: seq<Callback>
    /** Every subscriber call made so far, oldest first. */
    var delivered: seq<Notification>
    /** The user last given to the error reporter's `setUser`. */
    var reported: Option<ReportedUser>

    /** The store as a page starts it, from `initialValue`, with nobody subscribed. */
    constructor ()
      ensures state == InitialState && subscribers == [] && delivered == [] && reported.None?
    {
      state := InitialState;
      subscribers := [];
      delivered := [];
      reported := None;
    }

    /**
     * `mutate(state)`: the state becomes the merge; when `Flips`, the reported user is set (or
     * cleared) and every subscriber is called with the new user, in subscription order.
     */
    method Mutate(p: AuthPatch)
      modifies this
      ensures state == p.ApplyTo(old(state))
      ensures subscribers == old(subscribers)
      ensures delivered == old(delivered) + (if Flips(old(state), p) then Notifications(subscribers, state.user) else [])
      ensures reported == if Flips(old(state), p) then (if state.user.Some? then Some(Reported(state.user.value)) else None)
                          else old(reported)
    {
      var prevState := state;
      state := p.ApplyTo(prevState);
      if p.user.Present? && (prevState.user.Some? != p.user.value.Some?) {
        reported := if p.user.value.Some? then Some(Reported(p.user.value.value)) else None;
        var subs := subscribers;
        var user := state.user;
        var before := reported;
        for i := 0 to |subs|
          invariant state == p.ApplyTo(prevState) && subscribers == subs && reported == before
          invariant delivered == old(delivered) + Notifications(subs[..i], user)
        {
          assert subs[..i + 1][..i] == subs[..i];
          delivered := delivered + [Notification(subs[i], user)];
        }
        assert subs[..|subs|] == subs;
      }
    }

    /** `onAuthStateChange(cb)`: the callback is appended to the subscribers. */
    method OnAuthStateChange(cb: Callback)
      modifies this
      ensures subscribers == old(subscribers) + [cb]
      ensures state == old(state) && delivered == old(delivered) && reported == old(reported)
    {
      subscribers := subscribers + [cb];
    }

    /** The function `onAuthStateChange` returns: removes the first occurrence of `cb`, if any. */
    method Unsubscribe(cb: Callback)
      modifies this
      ensures subscribers == RemoveFirst(old(subscribers), cb)
      ensures state == old(state) && delivered == old(delivered) && reported == old(reported)
    {
      var index := FindCallback(subscribers, cb);
      if index != -1 {
        subscribers := subscribers[..index] + subscribers[index + 1..];
      }
    }

    /**
     * `signIn`, `signUpAnon`, `signUp` and `passwordReset`: the same two steps with a user as
     * the answer. The request starts in progress with no error; then the user is the answer
     * or null, the status `SUCCESS` or `ERROR`, and the error the request's.
     */
    method RequestUser(operation: AuthOperation, response: RequestOutcome<User>)
      requires operation == SIGN_IN || operation == SIGN_UP_ANON || operation == SIGN_UP || operation == PASSWORD_RESET
      modifies this
      ensures response.Succeeded? ==> state == AuthState(Some(response.value), SUCCESS, None, Some(operation))
      ensures response.Failed? ==> state == AuthState(None, ERROR, Some(response.error), Some(operation))
      ensures subscribers == old(subscribers)
      ensures delivered == old(delivered) + (if old(state.user).Some? != response.Succeeded?
                                             then Notifications(subscribers, state.user) else [])
    {
      Mutate(AuthPatch(Absent, Present(IN_PROGRESS), Present(None), Present(Some(operation))));
      var user := if response.Succeeded? then Some(response.value) else None;
      var error := if response.Failed? then Some(response.error) else None;
      Mutate(AuthPatch(Present(user), Present(if user.Some? then SUCCESS else ERROR), Present(error), Absent));
    }

    /** `signOut`: whatever the server answers, nobody is signed in afterwards. */
    method SignOut(failure: Option<RequestHelperError>)
      modifies this
      ensures state == AuthState(None, if failure.Some? then ERROR else IDLE, failure, Some(SIGN_OUT))
      ensures subscribers == old(subscribers)
      ensures delivered == old(delivered) + (if old(state.user).Some? then Notifications(subscribers, None) else [])
      ensures old(state.user).Some? ==> reported.None?
    {
      Mutate(AuthPatch(Absent, Present(IN_PROGRESS), Present(None), Present(Some(SIGN_OUT))));
      Mutate(AuthPatch(Present(None), Present(if failure.Some? then ERROR else IDLE), Present(failure), Absent));
    }

    /**
     * `passwordResetRequest(email)`: an empty email fails at once with a 400 and no request
     * is sent; otherwise the status is `SUCCESS` or `ERROR` as the server answered. The user
     * is kept and nobody is notified.
     */
    method PasswordResetRequest(email: string, failure: Option<RequestHelperError>) returns (requested: bool)
      modifies this
      ensures requested <==> email != ""
      ensures !requested ==>
                state == old(state).(status := ERROR, error := Some(EmptyEmailError), operation := Some(PASSWORD_RESET_REQUEST))
      ensures requested ==>
                state == old(state).(status := if failure.Some? then ERROR else SUCCESS, error := failure,
                                     operation := Some(PASSWORD_RESET_REQUEST))
      ensures subscribers == old(subscribers) && delivered == old(delivered) && reported == old(reported)
    {
      if email == "" {
        Mutate(AuthPatch(Absent, Present(ERROR), Present(Some(EmptyEmailError)), Present(Some(PASSWORD_RESET_REQUEST))));
        return false;
      }
      Mutate(AuthPatch(Absent, Present(IN_PROGRESS), Present(None), Present(Some(PASSWORD_RESET_REQUEST))));
      Mutate(AuthPatch(Absent, Present(if failure.Some? then ERROR else SUCCESS), Present(failure), Absent));
      requested := true;
    }

    /**
     * `fetchMe`: a 401 means nobody is signed in (idle, no error); any other failure keeps the
     * user with status `ERROR`; success signs the answered user in.
     */
    method FetchMe(response: RequestOutcome<User>)
      modifies this
      ensures response.Failed? && response.error.status == 401 ==> state == AuthState(None, IDLE, None, Some(FETCH_ME))
      ensures response.Failed? && response.error.status != 401 ==>
                state == AuthState(old(state.user), ERROR, Some(response.error), Some(FETCH_ME))
      ensures response.Succeeded? ==> state == AuthState(Some(response.value), SUCCESS, None, Some(FETCH_ME))
      ensures subscribers == old(subscribers)
      ensures delivered == old(delivered) + (if old(state.user).Some? != state.user.Some?
                                             then Notifications(subscribers, state.user) else [])
    {
      Mutate(AuthPatch(Absent, Present(IN_PROGRESS), Present(None), Present(Some(FETCH_ME))));
      if response.Failed? {
        if response.error.status == 401 {
          Mutate(AuthPatch(Present(None), Present(IDLE), Present(None), Absent));
        } else {
          Mutate(AuthPatch(Absent, Present(ERROR), Present(Some(response.error)), Absent));
        }
      } else {
        Mutate(AuthPatch(Present(Some(response.value)), Present(SUCCESS), Absent, Absent));
      }
    }

    /** `oauth(provider)`: the redirect is about to start; only the status bookkeeping changes. */
    method OAuth(provider: AuthOperation)
      requires provider == AuthOperation.GOOGLE || provider == AuthOperation.FACEBOOK
      modifies this
      ensures state == old(state).(status := IN_PROGRESS, error := None, operation := Some(provider))
      ensures subscribers == old(subscribers) && delivered == old(delivered) && reported == old(reported)
    {
      Mutate(AuthPatch(Absent, Present(IN_PROGRESS), Present(None), Present(Some(provider))));
    }

    /**
     * `update(user)`: on failure the status is `ERROR` with the error and the user is kept;
     * on success the answered user replaces it. Returns `[updatedUser, error]`.
     */
    method Update(response: RequestOutcome<User>) returns (updated: Option<User>, error: Option<RequestHelperError>)
      modifies this
      ensures response.Failed? ==> updated.None? && error == Some(response.error)
                                   && state == AuthState(old(state.user), ERROR, Some(response.error), Some(UPDATE))
      ensures response.Succeeded? ==> updated == Some(response.value) && error.None?
                                      && state == AuthState(Some(response.value), SUCCESS, None, Some(UPDATE))
      ensures subscribers == old(subscribers)
      ensures delivered == old(delivered) + (if old(state.user).Some? != state.user.Some?
                                             then Notifications(subscribers, state.user) else [])
    {
      Mutate(AuthPatch(Absent, Present(IN_PROGRESS), Present(None), Present(Some(UPDATE))));
      if response.Failed? {
        Mutate(AuthPatch(Absent, Present(ERROR), Present(Some(response.error)), Absent));
        return None, Some(response.error);
      }
      Mutate(AuthPatch(Present(Some(response.value)), Present(SUCCESS), Absent, Absent));
      return Some(response.value), None;
    }

    /**
     * `delete`: on failure the status is `ERROR` with the error and the user is kept; on
     * success the state is the initial one, which signs the user out.
     */
    method Delete(failure: Option<RequestHelperError>) returns (deleted: bool)
      modifies this
      ensures deleted <==> failure.None?
      ensures deleted ==> state == InitialState
      ensures !deleted ==> state == AuthState(old(state.user), ERROR, failure, Some(DELETE))
      ensures subscribers == old(subscribers)
      ensures delivered == old(delivered) + (if deleted && old(state.user).Some? then Notifications(subscribers, None) else [])
    {
      Mutate(AuthPatch(Absent, Present(IN_PROGRESS), Present(None), Present(Some(DELETE))));
      if failure.Some? {
        Mutate(AuthPatch(Absent, Present(ERROR), Present(failure), Absent));
        return false;
      }
      Mutate(ResetPatch);
      deleted := true;
    }

    /**
     * `init`: the status is forced to idle with no error; when the user-id cookie is present
     * the user is fetched, with `fetchMe`'s three outcomes. Subscribers hear of it only when
     * the fetch signs a user in or out.
     */
    method Init(hasUserIdCookie: bool, response: RequestOutcome<User>)
      modifies this
      ensures !hasUserIdCookie ==> state == old(state).(status := IDLE, error := None)
      ensures hasUserIdCookie && response.Failed? && response.error.status == 401 ==>
                state == AuthState(None, IDLE, None, Some(FETCH_ME))
      ensures hasUserIdCookie && response.Failed? && response.error.status != 401 ==>
                state == AuthState(old(state.user), ERROR, Some(response.error), Some(FETCH_ME))
      ensures hasUserIdCookie && response.Succeeded? ==> state == AuthState(Some(response.value), SUCCESS, None, Some(FETCH_ME))
      ensures subscribers == old(subscribers)
      ensures delivered == old(delivered) + (if old(state.user).Some? != state.user.Some?
                                             then Notifications(subscribers, state.user) else [])
    {
      Mutate(AuthPatch(Absent, Present(IDLE), Present(None), Absent));
      if hasUserIdCookie {
        FetchMe(response);
      }
    }
  }

  /** The error `passwordResetRequest` records for an empty email. */
  const EmptyEmailError := RequestHelperError(400, ErrorBody(None, Some("Enter email, so we send you a reset password link."), map[]))

  /** `onAuthStateChangeSubscribers.indexOf(cb)`. */
  method FindCallback(s: seq<Callback>, cb: Callback) returns (index: int)
    ensures index == IndexOf(s, cb)
  {
    index := 0;
    while index < |s| && s[index] != cb
      invariant 0 <= index <= |s|
      invariant forall j :: 0 <= j < index ==> s[j] != cb
    {
      index := index + 1;
    }
    if index == |s| {
      index := -1;
    } else {
      IndexOfIsFirstMatch(s, cb, index);
    }
  }

  lemma {:induction false} IndexOfIsFirstMatch(s: seq<Callback>, cb: Callback, i: int)
    requires 0 <= i < |s| && s[i] == cb
    requires forall j :: 0 <= j < i ==> s[j] != cb
    ensures IndexOf(s, cb) == i
    decreases i
  {
    if i > 0 {
      IndexOfIsFirstMatch(s[1..], cb, i - 1);
    }
  }
}
