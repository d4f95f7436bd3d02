/** The authentication calls of the HTTP client adapter, reduced to what they
    do with the durable token slot (`localStorage['token']`) and with the
    settled outcome of the backend request. */
module Api {
  import opened Wrappers
  import opened Types

  /** The durable token slot: `None` when no token is stored. */
  type TokenSlot = Option<string>

  /** What an adapter call settles with, and the token slot it leaves. */
  datatype Call<T> = Call(result: Outcome<T, Failure>, slot: TokenSlot)

  const TokenNotFound := "Token not found in response"

  /** `localStorage.setItem('token', v)` stores the string form of `v`, so a
      missing token is stored as the text "undefined". */
  function Stored(token: Option<string>): (r: TokenSlot)
    ensures r.Some?
    ensures token.Some? ==> r == token
  {
    Some(token.GetOr("undefined"))
  }

  /** `auth.login`: a response whose token is present and non-empty is stored
      and returned; a response without one becomes a thrown error; a rejected
      request is re-thrown. Only a successful login touches the slot. */
  function Login(slot: TokenSlot, server: Outcome<AuthBody, Failure>): (r: Call<AuthBody>)
    ensures r.result.Ok? <==> server.Ok? && HasToken(server.value)
    ensures r.result.Ok? ==> r.result.value == server.value && r.slot == server.value.token
    ensures r.result.Err? ==> r.slot == slot
    ensures server.Err? ==> r.result == server
    ensures server.Ok? && !HasToken(server.value) ==> r.result == Err(ErrorInstance(TokenNotFound, None))
  {
    match server
    case Err(e) => Call(Err(e), slot)
    case Ok(body) =>
      if HasToken(body) then Call(Ok(body), body.token)
      else Call(Err(ErrorInstance(TokenNotFound, None)), slot)
  }

  /** The transport-level response to a request: its `data` property is the body. */
  datatype HttpResponse = HttpResponse(data: AuthBody)

  /** What an awaited request through the configured client instance yields:
      either a transport response or, once the instance's response handler has
      run, the body itself. A body has no `data` property of its own. */
  datatype Resolved = Transport(response: HttpResponse) | BodyOnly(body: AuthBody)

  /** The configured instance's response handler: `response => response.data`. */
  function Unwrap(r: HttpResponse): (v: Resolved)
    ensures v.BodyOnly? && v.body == r.data
  {
    BodyOnly(r.data)
  }

  /** `v.data`: the body of a transport response, `undefined` for a body. */
  function DataProperty(v: Resolved): (d: Option<AuthBody>)
    ensures d.Some? <==> v.Transport?
  {
    match v
    case Transport(r) => Some(r.data)
    case BodyOnly(_) => None
  }

  const UndefinedRead := "Cannot read properties of undefined (reading 'token')"

  /** `auth.register` as written: it awaits the configured instance, which
      already yields the body, and then reads `.data.token` of that body as if
      it were the transport response. Reading `token` of `undefined` throws a
      `TypeError` before the slot is written. */
  function RegisterAsWritten(slot: TokenSlot, server: Outcome<AuthBody, Failure>): (r: Call<AuthBody>)
    ensures server.Err? ==> r == Call(server, slot)
  {
    match server
    case Err(e) => Call(Err(e), slot)
    case Ok(body) =>
      match DataProperty(Unwrap(HttpResponse(body)))
      case None => Call(Err(ErrorInstance(UndefinedRead, None)), slot)
      case Some(data) => Call(Ok(data), Stored(data.token))
  }

  /** Every successful registration is turned into a failure by the
      adapter as written, and the token the server issued is never stored. */
  lemma RegisterAsWrittenRejectsSuccess(slot: TokenSlot, body: AuthBody)
    ensures RegisterAsWritten(slot, Ok(body)) == Call(Err(ErrorInstance(UndefinedRead, None)), slot)
  {
  }

  /** `auth.register` as evidently intended: read the token from the body the
      client instance yields, store it and return the body. */
  function Register(slot: TokenSlot, server: Outcome<AuthBody, Failure>): (r: Call<AuthBody>)
    ensures r.result == server
    ensures server.Ok? ==> r.slot == Stored(server.value.token)
    ensures server.Err? ==> r.slot == slot
  {
    match server
    case Err(e) => Call(Err(e), slot)
    case Ok(body) =>
      var resolved := Unwrap(HttpResponse(body));
      Call(Ok(resolved.body), Stored(resolved.body.token))
  }

  /** `auth.logout`: the slot is emptied. */
  function Logout(slot: TokenSlot): (r: TokenSlot)
    ensures r.None?
  {
    None
  }
}
