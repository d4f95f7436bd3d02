/** The registration form without its rendering: its schema, the
    classification of a registration error, and what submitting it does. */
module RegisterForm {
  import opened Wrappers
  import opened Types
  import Text
  import AuthStore
  import Api

  datatype RegisterValues = RegisterValues(email: string, username: string, password: string, confirmPassword: string)

  datatype RegisterField = Email | Username | Password | ConfirmPassword

  /** The fields that fail the registration schema, lengths counted in
      UTF-16 code units as JavaScript's `length` does. Every value is a string,
      so the password-match refinement runs even when a field check already
      failed; its error is attached to the confirmation field, which has no
      check of its own. */
  function Errors(v: RegisterValues, isEmail: string -> bool): (r: set<RegisterField>)
    ensures Email in r <==> !isEmail(v.email)
    ensures Username in r <==> Text.JsLength(v.username) < 3
    ensures Password in r <==> Text.JsLength(v.password) < 6
    ensures ConfirmPassword in r <==> v.password != v.confirmPassword
  {
    (if isEmail(v.email) then {} else {Email})
    + (if Text.JsLength(v.username) >= 3 then {} else {Username})
    + (if Text.JsLength(v.password) >= 6 then {} else {Password})
    + (if v.password == v.confirmPassword then {} else {ConfirmPassword})
  }

  /** The form is accepted exactly when the e-mail is valid, the user name has
      at least three characters, the password at least six, and the
      confirmation repeats the password. */
  lemma AcceptedIff(v: RegisterValues, isEmail: string -> bool)
    ensures Errors(v, isEmail) == {} <==>
              isEmail(v.email) && Text.JsLength(v.username) >= 3 && Text.JsLength(v.password) >= 6 && v.password == v.confirmPassword
  {
    if Errors(v, isEmail) == {} {
      assert Email !in Errors(v, isEmail);
      assert ConfirmPassword !in Errors(v, isEmail);
    }
  }

  /** Lengths are UTF-16 code units: three key emoji, each outside the Basic
      Multilingual Plane, make a password of length six, which is accepted. */
  lemma AstralPasswordAccepted(v: RegisterValues, isEmail: string -> bool)
    requires isEmail(v.email) && v.username == "reader"
    requires v.password == "\U{1F511}\U{1F511}\U{1F511}" && v.confirmPassword == v.password
    ensures |v.password| == 3
    ensures Errors(v, isEmail) == {}
  {
    var key := "\U{1F511}";
    assert key[1..] == [];
    assert v.password == key + key + key;
    Text.JsLengthAppend(key + key, key);
    Text.JsLengthAppend(key, key);
    Text.JsLengthBmp(v.username);
  }

  const DuplicateMessage := "User already exists"
  const DuplicateToast := "User already exists. Please try a different email."
  const GenericToast := "Registration failed. Please try again."

  /** `error.response?.data?.message === 'User already exists'`: only an error
      object carrying a response whose message is exactly that text. */
  predicate IsDuplicate(e: Failure)
    ensures IsDuplicate(e) ==> e.ErrorInstance? && e.responseMessage == Some(DuplicateMessage)
    ensures e.NonError? ==> !IsDuplicate(e)
  {
    e.ErrorInstance? && e.responseMessage == Some(DuplicateMessage)
  }

  /** The submit handler's `catch` block: a duplicate account clears both
      password inputs and says so; any other error clears nothing and shows
      the generic message. */
  function CatchFailure(v: RegisterValues, e: Failure): (r: (RegisterValues, Toast))
    ensures r.1.kind == Error
    ensures IsDuplicate(e) ==>
              && r.0 == v.(password := "", confirmPassword := "")
              && r.1.message == DuplicateToast
    ensures !IsDuplicate(e) ==> r.0 == v && r.1.message == GenericToast
  {
    if IsDuplicate(e) then (v.(password := "", confirmPassword := ""), Toast(DuplicateToast, Error))
    else (v, Toast(GenericToast, Error))
  }

  /** The classification looks at nothing but the exact response message: a
      near miss, or the same text in a payload that is not an error object,
      is a generic failure. */
  lemma ClassificationIsExact(v: RegisterValues, m: string, text: string)
    requires m != DuplicateMessage
    ensures CatchFailure(v, ErrorInstance(text, Some(m))).0 == v
    ensures CatchFailure(v, ErrorInstance(text, None)).0 == v
    ensures CatchFailure(v, NonError(Some(DuplicateMessage))).0 == v
    ensures CatchFailure(v, ErrorInstance(text, Some(DuplicateMessage))).0.password == ""
  {
  }

  /** The arguments handed to the store's `register`. */
  datatype Credentials = Credentials(email: string, password: string, username: string)

  /** What one submission leaves behind: the credentials sent (if any), the
      session store, the form values, the last notification, the field errors
      shown, and whether the handler called `navigate('/books')`. */
  datatype Submission = Submission(
    sent: Option<Credentials>,
    auth: AuthStore.AuthState,
    form: RegisterValues,
    toast: Option<Toast>,
    errors: set<RegisterField>,
    navigated: bool)

  /** Submitting the form, given the step the store's `register` takes if it
      is called. A valid form awaits it and calls `navigate('/books')` once it
      resolves; the `catch` block runs only if it rejects. */
  function Respond(s: AuthStore.AuthState, v: RegisterValues, isEmail: string -> bool,
                   step: Step<AuthStore.AuthState>): (r: Submission)
    ensures r.sent.Some? <==> Errors(v, isEmail) == {}
    ensures r.sent.Some? ==> r.sent.value == Credentials(v.email, v.password, v.username)
    ensures Errors(v, isEmail) != {} ==>
              r.auth == s && r.form == v && r.toast.None? && r.errors == Errors(v, isEmail) && !r.navigated
    ensures Errors(v, isEmail) == {} ==> r.auth == step.state && r.errors == {}
    ensures Errors(v, isEmail) == {} && step.raised.None? ==>
              r.navigated && r.form == v && r.toast == step.toast
    ensures Errors(v, isEmail) == {} && step.raised.Some? ==>
              !r.navigated && r.toast.Some? && (r.form, r.toast.value) == CatchFailure(v, step.raised.value)
  {
    var errors := Errors(v, isEmail);
    if errors != {} then
      Submission(None, s, v, None, errors, false)
    else
      var sent := Some(Credentials(v.email, v.password, v.username));
      match step.raised
      case None => Submission(sent, step.state, v, step.toast, {}, true)
      case Some(e) =>
        var (form, toast) := CatchFailure(v, e);
        Submission(sent, step.state, form, Some(toast), {}, false)
  }

  /** Submitting the form over the store's `register` with the corrected
      adapter. Because the store swallows every failure, the handler calls
      `navigate('/books')` even when registration failed, and the
      duplicate-account branch is never reached. */
  function Submit(s: AuthStore.AuthState, v: RegisterValues, isEmail: string -> bool,
                  server: Outcome<AuthBody, Failure>): (r: Submission)
    ensures r.navigated <==> Errors(v, isEmail) == {}
    ensures r.sent.Some? <==> Errors(v, isEmail) == {}
    ensures r.sent.Some? ==> r.sent.value == Credentials(v.email, v.password, v.username)
    ensures r.form == v
    ensures r.toast != Some(Toast(DuplicateToast, Error))
    ensures Errors(v, isEmail) != {} ==> r.auth == s && r.toast.None?
    ensures Errors(v, isEmail) == {} && server.Ok? ==>
              r.auth.isAuthenticated && r.auth.user == Some(server.value.user)
    ensures Errors(v, isEmail) == {} && server.Err? ==>
              r.auth == s && r.toast == Some(Toast(AuthStore.RegisterFailed, Error))
  {
    Respond(s, v, isEmail, AuthStore.Register(s, server))
  }

  /** Over the registration adapter as written, a valid form whose
      registration the server accepts still calls `navigate('/books')`, but
      nobody is signed in and the failure message is shown. */
  lemma AcceptedRegistrationAsWritten(s: AuthStore.AuthState, v: RegisterValues, isEmail: string -> bool,
                                      body: AuthBody)
    requires Errors(v, isEmail) == {}
    ensures var r := Respond(s, v, isEmail, AuthStore.RegisterWith(s, Api.RegisterAsWritten(s.token, Ok(body))));
            && r.navigated
            && r.auth == s
            && r.toast == Some(Toast(AuthStore.RegisterFailed, Error))
  {
    AuthStore.RegisterAsWrittenNeverSignsIn(s, body);
  }
}
