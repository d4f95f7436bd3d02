/** The session store: the current user and the authentication flag, together
    with the durable token slot that login, registration and logout write. No
    operation re-raises: failures surface only as notifications. */
module AuthStore {
  import opened Wrappers
  import opened Types
  import Api

  /** `token` is the durable slot; it lives outside the in-memory store and
      survives a restart, while `user` and `isAuthenticated` do not. */
  datatype AuthState = AuthState(user: Option<User>, isAuthenticated: bool, token: Api.TokenSlot)

  const LoggedIn := "Successfully logged in!"
  const LoginFailed := "Login failed. Please check your credentials."
  const LoggedOut := "Successfully logged out!"
  const Registered := "Registration successful!"
  const RegisterFailed := "Registration failed. Please try again."

  /** The store as created: nobody signed in, whatever token a previous
      session left behind. */
  function Initial(persisted: Api.TokenSlot): (r: AuthState)
    ensures r.user.None? && !r.isAuthenticated
    ensures r.token == persisted
  {
    AuthState(None, false, persisted)
  }

  /** The flag is set exactly when a user is held, and a signed-in session
      always has a stored token. */
  predicate Valid(s: AuthState) {
    && (s.isAuthenticated <==> s.user.Some?)
    && (s.isAuthenticated ==> s.token.Some?)
  }

  /** `login(email, password)`, given how the backend request settles. */
  function Login(s: AuthState, server: Outcome<AuthBody, Failure>): (r: Step<AuthState>)
    ensures r.raised.None?
    ensures server.Ok? && HasToken(server.value) ==>
              && r.state == AuthState(Some(server.value.user), true, server.value.token)
              && r.toast == Some(Toast(LoggedIn, Success))
    ensures !(server.Ok? && HasToken(server.value)) ==>
              r.state == s && r.toast == Some(Toast(LoginFailed, Error))
  {
    var call := Api.Login(s.token, server);
    match call.result
    case Ok(response) =>
      if HasToken(response) then
        Step(AuthState(Some(response.user), true, response.token), Some(Toast(LoggedIn, Success)), None)
      else
        Step(s.(token := call.slot), Some(Toast(LoginFailed, Error)), None)
    case Err(_) =>
      Step(s.(token := call.slot), Some(Toast(LoginFailed, Error)), None)
  }

  /** `logout()`: never fails. */
  function Logout(s: AuthState): (r: Step<AuthState>)
    ensures r.state == AuthState(None, false, None)
    ensures r.toast == Some(Toast(LoggedOut, Success))
    ensures r.raised.None?
  {
    Step(AuthState(None, false, Api.Logout(s.token)), Some(Toast(LoggedOut, Success)), None)
  }

  /** The store's half of `register`: what it does with the adapter's result. */
  function RegisterWith(s: AuthState, call: Api.Call<AuthBody>): (r: Step<AuthState>)
    ensures r.raised.None?
    ensures call.result.Ok? ==>
              && r.state == AuthState(Some(call.result.value.user), true, call.slot)
              && r.toast == Some(Toast(Registered, Success))
    ensures call.result.Err? ==>
              && r.state == s.(token := call.slot)
              && r.toast == Some(Toast(RegisterFailed, Error))
  {
    match call.result
    case Ok(response) => Step(AuthState(Some(response.user), true, call.slot), Some(Toast(Registered, Success)), None)
    case Err(_) => Step(s.(token := call.slot), Some(Toast(RegisterFailed, Error)), None)
  }

  /** `register(email, password, username)` over the corrected adapter: a
      success signs the returned user in and stores the token; a failure is
      swallowed and leaves the state as it was. */
  function Register(s: AuthState, server: Outcome<AuthBody, Failure>): (r: Step<AuthState>)
    ensures r.raised.None?
    ensures server.Ok? ==>
              && r.state == AuthState(Some(server.value.user), true, Api.Stored(server.value.token))
              && r.toast == Some(Toast(Registered, Success))
    ensures server.Err? ==> r.state == s && r.toast == Some(Toast(RegisterFailed, Error))
  {
    RegisterWith(s, Api.Register(s.token, server))
  }

  /** Over the adapter as written, even a registration the server accepted
      leaves the session unchanged and reports failure: nobody new is signed
      in, the issued token is never stored, and a token left by an earlier
      session stays in the slot. */
  lemma RegisterAsWrittenNeverSignsIn(s: AuthState, body: AuthBody)
    ensures var r := RegisterWith(s, Api.RegisterAsWritten(s.token, Ok(body)));
            r.state == s && r.toast == Some(Toast(RegisterFailed, Error))
  {
  }

  /** Every transition keeps the session invariant; the store starts in it. */
  lemma ValidPreserved(s: AuthState, server: Outcome<AuthBody, Failure>, persisted: Api.TokenSlot)
    requires Valid(s)
    ensures Valid(Initial(persisted))
    ensures Valid(Login(s, server).state)
    ensures Valid(Logout(s).state)
    ensures Valid(Register(s, server).state)
  {
  }

  /** Signing in with a token "T" from a fresh store: the user is held, the
      flag is set, the slot holds "T", and success is notified. */
  lemma LoginScenario(u: User)
    ensures Login(Initial(None), Ok(AuthBody(Some("T"), u)))
         == Step(AuthState(Some(u), true, Some("T")), Some(Toast(LoggedIn, Success)), None)
  {
  }

  /** A failed login, for whatever reason, never changes the session. */
  lemma LoginFailureKeepsSession(s: AuthState, e: Failure, u: User)
    ensures Login(s, Err(e)).state == s
    ensures Login(s, Ok(AuthBody(None, u))).state == s
    ensures Login(s, Ok(AuthBody(Some(""), u))).state == s
  {
  }
}
