/**
 * The authentication provider of `src/context/AuthContext.tsx` as a state
 * machine. The state is the provider's `AuthState` together with the token
 * kept in browser storage; each request's result (a success with its JSON
 * payload, a refusal with its message, or an exception) is an input.
 */
module Auth {
  import opened Wrappers
  import opened Text

  datatype User = User(id: string, username: string, email: string)

  datatype AuthState = AuthState(
    token: Option<string>,
    isAuthenticated: bool,
    user: Option<User>,
    loading: bool,
    error: Option<string>)

  /** The provider's state and the token held in storage under the key "token". */
  datatype Session = Session(state: AuthState, stored: Option<string>)

  /** The result of the request `loadUser` makes. */
  datatype UserResponse = UserOk(user: Option<User>) | UserNotOk | UserThrew

  /**
   * The result of a login or sign-up request: a success with the payload's
   * `token` and `user` (either may be missing from the JSON), a refusal with
   * the payload's `message`, or an exception (no connection, or a body that
   * is not JSON).
   */
  datatype AuthResponse = AuthOk(token: Option<string>, user: Option<User>) | AuthNotOk(message: Option<string>) | AuthThrew

  /** `initialState`: signed out, no user, loading, no error, the stored token. */
  function Initial(stored: Option<string>): (s: Session)
    ensures s.state.token == stored && s.stored == stored
    ensures !s.state.isAuthenticated && s.state.user.None? && s.state.loading && s.state.error.None?
  {
    Session(AuthState(stored, false, None, true, None), stored)
  }

  /**
   * `loadUser` as written. The effect captures `started`, the token at the
   * time it ran, and decides on it; the answer is applied to the session `s`
   * current when it arrives, which a login or a logout may have changed in
   * between. With no (or an empty) token it only stops loading; with one, a
   * success signs the user in, and a refusal or an exception forgets the
   * token in memory and in storage and signs out. The error is never touched.
   */
  function LoadFinished(s: Session, started: Option<string>, response: UserResponse): (r: Session)
    ensures !Truthy(started) ==> r == s.(state := s.state.(loading := false))
    ensures Truthy(started) && response.UserOk? ==>
      r == s.(state := s.state.(isAuthenticated := true, loading := false, user := response.user))
    ensures Truthy(started) && !response.UserOk? ==>
      r == Session(s.state.(token := None, isAuthenticated := false, loading := false, user := None), None)
    ensures r.state.error == s.state.error && !r.state.loading
  {
    if !Truthy(started) then
      s.(state := s.state.(loading := false))
    else
      match response
      case UserOk(user) => s.(state := s.state.(isAuthenticated := true, loading := false, user := user))
      case _ => Session(s.state.(token := None, isAuthenticated := false, loading := false, user := None), None)
  }

  /** A load whose answer arrives before anything else changed the session. */
  function LoadUser(s: Session, response: UserResponse): (r: Session)
    ensures !Truthy(s.state.token) ==> r == s.(state := s.state.(loading := false))
    ensures Truthy(s.state.token) && response.UserOk? ==>
      r == s.(state := s.state.(isAuthenticated := true, loading := false, user := response.user))
    ensures Truthy(s.state.token) && !response.UserOk? ==>
      r == Session(s.state.(token := None, isAuthenticated := false, loading := false, user := None), None)
    ensures r.state.error == s.state.error && !r.state.loading
  {
    LoadFinished(s, s.state.token, response)
  }

  /**
   * The corrected load: an answer to a request started under a token the
   * session no longer holds is dropped, since the effect has already run
   * again for the new token.
   */
  function LoadFinishedFresh(s: Session, started: Option<string>, response: UserResponse): (r: Session)
    ensures started == s.state.token ==> r == LoadUser(s, response)
    ensures started != s.state.token ==> r == s
  {
    if started == s.state.token then LoadFinished(s, started, response) else s
  }

  /**
   * The shared body of `login` and `register`: a success stores the token and
   * signs the user in with no error; a refusal changes only the error, to the
   * server's message; an exception changes only the error, to "Server error".
   */
  function Authenticate(s: Session, response: AuthResponse): (r: Session)
    ensures response.AuthOk? ==> r.state == AuthState(response.token, true, response.user, false, None)
    ensures response.AuthOk? ==> r.stored == Some(StoredText(response.token))
    ensures response.AuthNotOk? ==> r == s.(state := s.state.(error := response.message))
    ensures response.AuthThrew? ==> r == s.(state := s.state.(error := Some("Server error")))
  {
    match response
    case AuthOk(token, user) =>
      Session(s.state.(token := token, isAuthenticated := true, loading := false, user := user, error := None),
              Some(StoredText(token)))
    case AuthNotOk(message) => s.(state := s.state.(error := message))
    case AuthThrew => s.(state := s.state.(error := Some("Server error")))
  }

  /** Storage keeps text: `setItem` of a missing token stores the text "undefined". */
  function StoredText(token: Option<string>): string {
    token.GetOr("undefined")
  }

  /** `login(email, password)`: the request's result applied as above. */
  function Login(s: Session, response: AuthResponse): (r: Session)
    ensures r == Authenticate(s, response)
  {
    Authenticate(s, response)
  }

  /** `register(username, email, password)`: handled exactly as a login. */
  function SignUp(s: Session, response: AuthResponse): (r: Session)
    ensures r == Login(s, response)
  {
    Authenticate(s, response)
  }

  /** `logout`: forget the token in memory and in storage and sign out; loading and error stay. */
  function Logout(s: Session): (r: Session)
    ensures r.stored.None? && r.state.token.None? && !r.state.isAuthenticated && r.state.user.None?
    ensures r.state.loading == s.state.loading && r.state.error == s.state.error
  {
    Session(s.state.(token := None, isAuthenticated := false, user := None), None)
  }

  // ------------------------------------------------------------- traces

  /** `Load(started, u)`: the answer `u` to a load started under the token `started`. */
  datatype Action = Load(started: Option<string>, u: UserResponse) | LogIn(a: AuthResponse) | SignUpWith(a: AuthResponse) | LogOut

  function Step(s: Session, act: Action): Session {
    match act
    case Load(started, u) => LoadFinishedFresh(s, started, u)
    case LogIn(a) => Login(s, a)
    case SignUpWith(a) => SignUp(s, a)
    case LogOut => Logout(s)
  }

  /** The session after the actions, in order. */
  function Run(s: Session, acts: seq<Action>): Session
    decreases |acts|
  {
    if |acts| == 0 then s else Run(Step(s, acts[0]), acts[1..])
  }

  /** A server that answers every success with a token and a user. */
  predicate WellFormed(act: Action) {
    match act
    case Load(_, u) => u.UserOk? ==> u.user.Some?
    case LogIn(a) => a.AuthOk? ==> a.token.Some? && a.user.Some?
    case SignUpWith(a) => a.AuthOk? ==> a.token.Some? && a.user.Some?
    case LogOut => true
  }

  /**
   * A signed-in session has finished loading and holds a user and a token,
   * and the token in memory is the one in storage.
   */
  predicate Consistent(s: Session) {
    (s.state.isAuthenticated ==> !s.state.loading && s.state.user.Some? && s.state.token.Some?)
    && s.state.token == s.stored
  }

  lemma StepKeepsConsistent(s: Session, act: Action)
    requires Consistent(s) && WellFormed(act)
    ensures Consistent(Step(s, act))
  {
  }

  /**
   * Any sequence of well-formed answers keeps the session consistent, however
   * the loads interleave with logins and logouts.
   */
  lemma {:induction false} RunKeepsConsistent(s: Session, acts: seq<Action>)
    requires Consistent(s)
    requires forall i :: 0 <= i < |acts| ==> WellFormed(acts[i])
    ensures Consistent(Run(s, acts))
    decreases |acts|
  {
    if |acts| > 0 {
      StepKeepsConsistent(s, acts[0]);
      RunKeepsConsistent(Step(s, acts[0]), acts[1..]);
    }
  }

  lemma InitialConsistent(stored: Option<string>)
    ensures Consistent(Initial(stored))
  {
  }

  /**
   * A success without a token breaks the agreement: memory holds no token
   * while storage holds the text "undefined".
   */
  lemma MissingTokenStoredAsText(s: Session, user: Option<User>)
    ensures Login(s, AuthOk(None, user)).state.token.None?
    ensures Login(s, AuthOk(None, user)).stored == Some("undefined")
  {
  }

  /**
   * As written, a load started after a login and answered after a logout
   * signs the user back in with no token anywhere: the session claims a user
   * that no request can authenticate.
   */
  lemma LoadAfterLogoutSignsIn(t: string, u: User)
    requires t != ""
    ensures var before := Logout(Login(Initial(None), AuthOk(Some(t), Some(u))));
      var after := LoadFinished(before, Some(t), UserOk(Some(u)));
      Consistent(before) && !Consistent(after)
      && after.state.isAuthenticated && after.state.token.None? && after.stored.None?
  {
  }

  /** The corrected load drops that answer, and the session stays signed out. */
  lemma LoadAfterLogoutDropped(t: string, u: User)
    requires t != ""
    ensures var before := Logout(Login(Initial(None), AuthOk(Some(t), Some(u))));
      var after := LoadFinishedFresh(before, Some(t), UserOk(Some(u)));
      after == before && Consistent(after) && !after.state.isAuthenticated
  {
  }

  /** Signing out and loading again leaves a signed-out, loaded session with the error unchanged. */
  lemma LogoutThenLoad(s: Session, u: UserResponse)
    ensures var r := LoadUser(Logout(s), u);
      !r.state.isAuthenticated && !r.state.loading && r.state.user.None? && r.stored.None?
      && r.state.error == s.state.error
  {
  }
}
