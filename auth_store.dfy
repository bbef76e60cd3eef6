/** The browser's authentication store: the two tokens, the signed-in user
    and whether the session counts as authenticated. */
module AuthStore {
  import opened Common

  datatype AuthUser = AuthUser(id: string, email: string, name: string)

  /** The body of a login response. */
  datatype LoginResponse = LoginResponse(accessToken: string, refreshToken: string, tokenType: string, user: AuthUser)

  /** The body of a token refresh response. */
  datatype RefreshResponse = RefreshResponse(accessToken: string, refreshToken: string, tokenType: string)

  class AuthState {
    var accessToken: Option<string>
    var refreshToken: Option<string>
    var user: Option<AuthUser>
    var isAuthenticated: bool

    /** Signed out: nothing stored, not authenticated. */
    predicate IsSignedOut()
      reads this
    {
      accessToken.None? && refreshToken.None? && user.None? && !isAuthenticated
    }

    /** An authenticated store always holds both tokens and a user. */
    predicate Valid()
      reads this
    {
      isAuthenticated ==> accessToken.Some? && refreshToken.Some? && user.Some?
    }

    /** The store starts signed out. */
    constructor ()
      ensures IsSignedOut() && Valid()
    {
      accessToken := None;
      refreshToken := None;
      user := None;
      isAuthenticated := false;
    }

    /** `setAuth`: a login stores both tokens and the user and authenticates. */
    method SetAuth(response: LoginResponse)
      modifies this
      ensures Valid()
      ensures accessToken == Some(response.accessToken) && refreshToken == Some(response.refreshToken)
      ensures user == Some(response.user) && isAuthenticated
    {
      accessToken := Some(response.accessToken);
      refreshToken := Some(response.refreshToken);
      user := Some(response.user);
      isAuthenticated := true;
    }

    /** `setTokens`: a refresh replaces the two tokens and nothing else. */
    method SetTokens(response: RefreshResponse)
      requires Valid()
      modifies this
      ensures Valid()
      ensures accessToken == Some(response.accessToken) && refreshToken == Some(response.refreshToken)
      ensures user == old(user) && isAuthenticated == old(isAuthenticated)
    {
      accessToken := Some(response.accessToken);
      refreshToken := Some(response.refreshToken);
    }

    /** `setUser`: replaces the user and nothing else. */
    method SetUser(u: AuthUser)
      requires Valid()
      modifies this
      ensures Valid()
      ensures user == Some(u)
      ensures accessToken == old(accessToken) && refreshToken == old(refreshToken)
      ensures isAuthenticated == old(isAuthenticated)
    {
      user := Some(u);
    }

    /** `logout`: back to the initial, signed-out state. */
    method Logout()
      modifies this
      ensures Valid() && IsSignedOut()
    {
      accessToken := None;
      refreshToken := None;
      user := None;
      isAuthenticated := false;
    }
  }
}
