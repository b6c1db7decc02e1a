/** The client's session table, frontend/src/features/auth/authSlice.ts: logged-in
    users keyed by user id, with loading and error flags, the reducers that
    change them and the two selectors. The login request itself is not
    modelled; its outcome arrives as the fulfilled or rejected payload. */
module AuthSlice {
  import opened Wrappers
  import opened JsValues

  datatype User = User(userID: int, name: string, id: string, admin: bool)

  datatype UserSession = UserSession(user: User, token: string)

  /** The body of a successful /users/login response. */
  datatype LoginResponse = LoginResponse(token: string, user: User)

  /** selectUserById: the user of the session stored under `id`, or null. */
  function SelectUserById(sessions: map<string, UserSession>, id: string): (r: Option<User>)
    ensures r.None? <==> id !in sessions
    ensures r.Some? ==> r.value == sessions[id].user
  {
    if id in sessions then Some(sessions[id].user) else None
  }

  /** selectTokenById: the token of the session stored under `id`, or null. */
  function SelectTokenById(sessions: map<string, UserSession>, id: string): (r: Option<string>)
    ensures r.None? <==> id !in sessions
    ensures r.Some? ==> r.value == sessions[id].token
  {
    if id in sessions then Some(sessions[id].token) else None
  }

  /** A login stores the response under its user's id: that user and token are
      what the selectors now give for the id, whatever session it held, and every
      other id selects what it did before. */
  lemma LoginThenSelect(sessions: map<string, UserSession>, response: LoginResponse, other: string)
    requires other != response.user.id
    ensures var after := sessions[response.user.id := UserSession(response.user, response.token)];
      && SelectUserById(after, response.user.id) == Some(response.user)
      && SelectTokenById(after, response.user.id) == Some(response.token)
      && SelectUserById(after, other) == SelectUserById(sessions, other)
      && SelectTokenById(after, other) == SelectTokenById(sessions, other)
  {
  }

  /** After a logout the id selects nothing, and every other id what it did before. */
  lemma LogoutThenSelect(sessions: map<string, UserSession>, id: string, other: string)
    requires other != id
    ensures SelectUserById(sessions - {id}, id) == None
    ensures SelectTokenById(sessions - {id}, id) == None
    ensures SelectTokenById(sessions - {id}, other) == SelectTokenById(sessions, other)
  {
  }

  class AuthState {
    var loggedInUser: map<string, UserSession>
    var isLoading: bool
    var error: Option<string>

    /** initialState */
    constructor ()
      ensures loggedInUser == map[] && !isLoading && error == None
    {
      loggedInUser := map[];
      isLoading := false;
      error := None;
    }

    /** clearAuthError */
    method ClearAuthError()
      modifies this
      ensures error == None
      ensures loggedInUser == old(loggedInUser) && isLoading == old(isLoading)
    {
      error := None;
    }

    /** logoutUserById: `delete` the key; an absent key is a no-op. */
    method LogoutUserById(id: string)
      modifies this
      ensures loggedInUser == old(loggedInUser) - {id}
      ensures id !in old(loggedInUser) ==> loggedInUser == old(loggedInUser)
      ensures SelectTokenById(loggedInUser, id) == None
      ensures isLoading == old(isLoading) && error == old(error)
    {
      loggedInUser := loggedInUser - {id};
    }

    /** loginUser.pending */
    method LoginPending()
      modifies this
      ensures isLoading && error == None
      ensures loggedInUser == old(loggedInUser)
    {
      isLoading := true;
      error := None;
    }

    /** loginUser.fulfilled: store `{user, token}` under `user.id`, overwriting
        any session already there. The error is left as it was. */
    method LoginFulfilled(response: LoginResponse)
      modifies this
      ensures !isLoading && error == old(error)
      ensures loggedInUser == old(loggedInUser)[response.user.id := UserSession(response.user, response.token)]
      ensures SelectTokenById(loggedInUser, response.user.id) == Some(response.token)
    {
      isLoading := false;
      var user, token := response.user, response.token;
      loggedInUser := loggedInUser[user.id := UserSession(user, token)];
    }

    /** loginUser.rejected: the rejection's message, or "Login failed". */
    method LoginRejected(payload: Option<string>)
      modifies this
      ensures !isLoading && error == Some(OrElse(payload, "Login failed"))
      ensures loggedInUser == old(loggedInUser)
    {
      isLoading := false;
      error := Some(OrElse(payload, "Login failed"));
    }
  }
}
