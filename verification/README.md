# Book tracker client — a Dafny model of its state stores and form logic

The book tracker is a single-page client for a personal reading list: users
register and sign in, keep a list of books with a status and a rating, and
read and post reviews. The backend does the real work. The client holds three
small stores (session, book collection, notification), an HTTP adapter that
writes a durable token slot, and the validation and submit logic of a few
forms.

This project models that logic as pure Dafny functions. Every awaited backend
call becomes a parameter: an `Outcome` that is either `Ok(payload)` or
`Err(failure)`. A store operation then maps the old state and that outcome to a
`Step`: the new state, the notification it emits, and the failure it re-raises
to its caller.

Modules, one per source file:

- `Wrappers`: `Option` and `Outcome`.
- `Types`: the book, user and authentication-response records. Also the
  three-valued `Status`, the object spread `{ ...book, ...patch }` (`Merge`),
  the `Failure` an awaited call rejects with, and `Toast` / `Step`.
- `ToastStore`: the single notification slot, where the last write wins.
- `Api`: the login, registration and logout adapters over the durable token slot.
- `AuthStore`: the session store. `isAuthenticated` holds exactly when a user is
  held, and a signed-in session always has a stored token.
- `BookStore`: the collection store and its fetch/add/update/delete discipline.
- `Text`: `String.prototype.trim` and the `length` of a string in UTF-16 code units.
- `StarRating`: the star list, the fill rule, and click and hover.
- `BookForm`, `AddBookForm`, `EditBookModal`: the book schema (declared
  identically in both components, defined once here), default values, and submit handling.
- `RegisterForm`: the registration schema, duplicate-account classification,
  and submit handling.
- `BookDetails`: fetching reviews, the review guard, and the posted payload.

The starting states are `BookStore.Initial` (no books, not loading, no error),
`ToastStore.Initial` (no message, severity `success`) and `BookDetails.Initial`,
which are constants, and `AuthStore.Initial(persisted)` (nobody signed in,
with whatever token a previous session left in the durable slot).

Three behaviours of the code are easy to misread; the model follows the code:

- `register` in the session store swallows every failure and does not re-raise.
  So the registration form's duplicate-account branch is never reached, and the
  form calls `navigate('/books')` even after a failed registration
  (`RegisterForm.Submit`). The branch would be unreachable even if the store
  re-raised: the client instance rejects with the response body when there is
  one (src/utils/api.ts:38), and such a bare payload has no `response` field,
  so it is never classified as a duplicate (`RegisterForm.ClassificationIsExact`).
- `deleteBook` removes every entry with the identifier, not only the first
  (`BookStore.DeleteRemovesEveryMatch`).
- The login token is stored by the `auth.login` adapter itself and again by the
  store. The response handler's login-URL branch never applies, because
  `auth.login` does not go through the configured client instance.

## Model

| member | source | states |
|---|---|---|
| Types.ParseStatus | src/components/books/AddBookForm.tsx:16 | a status value parses only when it is one of the three spellings, and then to the status spelled that way |
| Types.StatusRoundTrip | src/types/book.ts:9 | the three status spellings parse back to their status, and only they do |
| Types.MergeLaws | src/store/bookStore.ts:54 | spreading an empty object changes nothing; spreading a whole book yields it, except that an absent completion date keeps the old one |
| Types.MergeRatingOnly | src/store/bookStore.ts:52-56 | an answer carrying only a rating changes that field and no other |
| Types.Merge | src/store/bookStore.ts:54 | every field the server's answer carries overrides the book's; every field it lacks keeps the book's value |
| Types.ErrorMessage | src/store/bookStore.ts:26 | an `Error` instance contributes its own message; any other rejection value gives the operation's fallback text |
| ToastStore.Show | src/store/toastStore.ts:13 | showing sets both the message and the severity |
| ToastStore.ShowDefault | src/store/toastStore.ts:13 | an omitted severity shows the message with severity `success`, whatever the slot held |
| ToastStore.Hide | src/store/toastStore.ts:14 | hiding clears the message and keeps the severity |
| ToastStore.LastWriteWins | src/store/toastStore.ts:13 | a second notification replaces the first entirely; nothing is queued |
| ToastStore.HideIdempotent | src/store/toastStore.ts:14 | hiding twice equals hiding once |
| ToastStore.EmitAllKeepsLast | src/store/toastStore.ts:13 | an empty run of notifications leaves the slot as it was; after any non-empty run the slot holds exactly the last one |
| Api.Stored | src/utils/api.ts:67 | writing the slot always leaves it non-empty, holding the token when there is one |
| Api.Login | src/utils/api.ts:43-62 | the call succeeds exactly when the server answers with a non-empty token; only then is the slot written; a missing token becomes the "Token not found" error; a rejection passes through unchanged |
| Api.Unwrap | src/utils/api.ts:24-31 | the configured client yields the response body, not the transport response |
| Api.RegisterAsWritten | src/utils/api.ts:64-69 | as written, a rejected request passes through with the slot untouched |
| Api.RegisterAsWrittenRejectsSuccess | src/utils/api.ts:65-67 | as written, every accepted registration becomes a TypeError and no token is stored |
| Api.Register | src/utils/api.ts:64-69 | corrected: the call settles as the request did, and an accepted registration stores its token |
| Api.Logout | src/utils/api.ts:71-73 | logout empties the slot |
| AuthStore.Initial | src/store/authStore.ts:8-9 | the store starts with no user and unauthenticated, whatever token is persisted |
| AuthStore.Login | src/store/authStore.ts:10-30 | a login with a token signs the user in, stores the token and notifies success; any failure keeps the whole state and notifies an error; nothing is re-raised |
| AuthStore.Logout | src/store/authStore.ts:31-35 | logout always ends with no user, unauthenticated, no token and a success notification |
| AuthStore.RegisterWith | src/store/authStore.ts:36-46 | the adapter's success signs the returned user in; its failure leaves the session as it was and notifies an error; nothing is re-raised |
| AuthStore.Register | src/store/authStore.ts:36-46 | an accepted registration signs the user in and stores the token; a failure leaves the session as it was |
| AuthStore.RegisterAsWrittenNeverSignsIn | src/utils/api.ts:65-67 | over the adapter as written, even an accepted registration leaves the session unchanged and reports failure |
| AuthStore.ValidPreserved | src/store/authStore.ts:7-46 | the initial state and every transition keep `isAuthenticated` iff a user is held, and signed-in implies a stored token |
| AuthStore.LoginScenario | src/store/authStore.ts:16-19 | logging in from a fresh store with token "T" holds the user, sets the flag, stores "T" and notifies success |
| AuthStore.LoginFailureKeepsSession | src/store/authStore.ts:20-29 | a rejected call, a missing token and an empty token all leave the session unchanged |
| BookStore.Begin | src/store/bookStore.ts:22 | while a call is in flight the store is loading with no error and the same books |
| BookStore.Fail | src/store/bookStore.ts:39-46 | a failure keeps the books, ends loading, records the error's message or the fallback, notifies that same message as an error, and re-raises exactly when asked to |
| BookStore.MergeById | src/store/bookStore.ts:52-56 | the mapped list has the same length; entries with the identifier are merged with the answer, all others are unchanged |
| BookStore.RemoveById | src/store/bookStore.ts:71-73 | the filtered list has no entry with the identifier; every other entry keeps its multiplicity; the length drops by the number of matches |
| BookStore.FetchBooks | src/store/bookStore.ts:20-32 | success replaces the books with the server list and notifies nothing; failure keeps the books, records and notifies the message, and does not re-raise; loading always ends false |
| BookStore.AddBook | src/store/bookStore.ts:33-47 | success appends the server's book after the unchanged old list and notifies "Book added successfully!"; failure keeps the books, records and notifies the message or "Failed to add book", and re-raises |
| BookStore.UpdateBook | src/store/bookStore.ts:48-66 | success keeps the length, merges the answer into exactly the entries with the identifier and notifies success; failure keeps the books and re-raises |
| BookStore.DeleteBook | src/store/bookStore.ts:67-83 | success removes every entry with the identifier and keeps all others in their order; the length drops by the number of matches; failure keeps the books and re-raises |
| BookStore.CountIdZero | src/store/bookStore.ts:72 | no entry is counted for an identifier iff no entry carries it |
| BookStore.RemoveByIdAppend | src/store/bookStore.ts:72 | filtering distributes over concatenation, so relative order is kept |
| BookStore.RemoveAbsent | src/store/bookStore.ts:72 | filtering an identifier no entry has returns the list unchanged |
| BookStore.AbsentIdIsNoOp | src/store/bookStore.ts:52-73 | an update or a deletion for an absent identifier leaves the books unchanged |
| BookStore.DeleteShrinksIffPresent | src/store/bookStore.ts:67-73 | a confirmed deletion shortens the collection iff some entry carries the identifier |
| BookStore.RatingOnlyUpdate | src/store/bookStore.ts:52-56 | an update answered with only a rating changes just the rating of the matching entries |
| BookStore.AddThenDeleteRestores | src/store/bookStore.ts:36-73 | adding a book with a fresh identifier and then deleting that identifier restores the collection |
| BookStore.DeleteRemovesEveryMatch | src/store/bookStore.ts:71-73 | an illustration of `DeleteBook`'s contract on two entries sharing an identifier: both are removed, not only the first |
| BookStore.ErrorIffFailed | src/store/bookStore.ts:20-83 | after every operation the error is empty iff the call succeeded; only a failed write re-raises |
| Text.TrimStart | src/components/books/BookDetails.tsx:63 | the result is a suffix, everything dropped is white space, and it does not start with white space |
| Text.TrimEnd | src/components/books/BookDetails.tsx:63 | the result is a prefix, everything dropped is white space, and it does not end with white space |
| Text.TrimIsSlice | src/components/books/BookDetails.tsx:73 | the trimmed comment is the contiguous run of the original that starts after the leading white space |
| Text.TrimCutsWhitespace | src/components/books/BookDetails.tsx:73 | everything trimming cuts away, before and after that run, is white space |
| Text.Trim | src/components/books/BookDetails.tsx:63 | trimming never lengthens, and a non-empty result starts and ends with a character that is not white space |
| Text.TrimEmptyIff | src/components/books/BookDetails.tsx:63 | a string trims to nothing iff it is white space throughout |
| Text.TrimIdempotent | src/components/books/BookDetails.tsx:73 | trimming twice equals trimming once |
| Text.CodeUnits | src/components/auth/RegisterForm.tsx:11-12 | a character above the Basic Multilingual Plane takes two code units, every other character one |
| Text.JsLength | src/components/auth/RegisterForm.tsx:11-12 | `length` lies between the number of characters and twice it, and is zero only for the empty string |
| Text.JsLengthAppend | src/components/auth/RegisterForm.tsx:11-12 | the length of a concatenation is the sum of the lengths |
| Text.JsLengthBmp | src/components/books/AddBookForm.tsx:11-14 | `length` equals the number of characters iff no character lies above the Basic Multilingual Plane |
| StarRating.Stars | src/components/books/StarRating.tsx:20 | there are exactly `maxRating` stars (none when it is not positive), numbered 1 to `maxRating` |
| StarRating.DisplayRating | src/components/books/StarRating.tsx:22 | the hovered star is shown if there is one, otherwise the rating |
| StarRating.FillMask | src/components/books/StarRating.tsx:31 | one flag per star, and star k is filled iff k <= the displayed rating |
| StarRating.FilledPrefix | src/components/books/StarRating.tsx:26-33 | the filled stars form a prefix: a filled star has only filled stars before it |
| StarRating.FilledCount | src/components/books/StarRating.tsx:26-33 | the number of filled stars is the floor of the displayed rating clamped to [0, maxRating] |
| StarRating.Click | src/components/books/StarRating.tsx:37 | a click emits the star's number iff the widget is editable and has a handler |
| StarRating.Enter | src/components/books/StarRating.tsx:38 | hovering sets the hover star only when editable |
| StarRating.Leave | src/components/books/StarRating.tsx:39 | leaving clears the hover star only when editable |
| StarRating.HoverRoundTrip | src/components/books/StarRating.tsx:22-39 | on an editable widget, entering star k shows k whatever the rating, and leaving again shows the rating; a read-only widget's hover state never changes |
| StarRating.ClickInRange | src/components/books/StarRating.tsx:20-37 | a rating emitted by a click lies between 1 and `maxRating` |
| BookForm.PatchOf | src/components/books/EditBookModal.tsx:45-47 | a saved form sends each of the seven form fields with the form's value, and never an identifier or a date |
| BookForm.FailingFields | src/components/books/AddBookForm.tsx:10-18 | a field is reported iff its own constraint fails, lengths counted in UTF-16 code units, and none is reported iff the whole form meets the constraints |
| BookForm.Schema | src/components/books/AddBookForm.tsx:10-18 | accepted iff title and author are non-empty, ISBN and description have a `length` of at least 10 (UTF-16 code units), the URL is valid, the status is one of three and the rating is in [0, 5]; an accepted form yields its values with the parsed status; otherwise the error set names exactly the failing fields |
| AddBookForm.DefaultsValid | src/components/books/AddBookForm.tsx:34-37 | the defaults `want-to-read` and 0 pass the status and rating checks; an untouched form fails on the text fields |
| AddBookForm.WhitespaceAccepted | src/components/books/AddBookForm.tsx:11-14 | lengths are not trimmed: space-only text passes |
| AddBookForm.AstralDescriptionAccepted | src/components/books/AddBookForm.tsx:14 | a description of five emoji above the Basic Multilingual Plane has length ten and passes; five letters do not |
| AddBookForm.Submit | src/components/books/AddBookForm.tsx:42-49 | the object handed to `addBook` is the schema's validated object; the page moves to the book list iff the form is valid and `addBook` resolves; an invalid form sends nothing, leaves the store unchanged and shows exactly the failing fields; a rejection keeps the user on the form |
| EditBookModal.Defaults | src/components/books/EditBookModal.tsx:34-42 | the dialog opens with the book's title, author, ISBN, description, cover URL and rating, and a status value that parses back to the book's status |
| EditBookModal.ChooseStar | src/components/books/EditBookModal.tsx:145 | choosing a star sets the rating to its number and changes nothing else |
| EditBookModal.UntouchedSaveRoundTrip | src/components/books/EditBookModal.tsx:34-47 | an untouched dialog is accepted iff the book meets the constraints (lengths in UTF-16 code units), and merging an echo of what it sends leaves the book unchanged |
| EditBookModal.ChosenStarIsValid | src/components/books/EditBookModal.tsx:142-146 | a chosen star is a rating from 1 to 5, so a form valid except for its rating becomes valid |
| EditBookModal.Submit | src/components/books/EditBookModal.tsx:45-51 | no failure escapes the submit handler; a valid form hands the schema's validated values to `onSave` as a patch and goes through `updateBook`, whose rejection keeps the books; an invalid form sends nothing |
| RegisterForm.Errors | src/components/auth/RegisterForm.tsx:9-17 | each field fails exactly on its own check, lengths counted in UTF-16 code units; the confirmation fails iff it differs from the password |
| RegisterForm.AcceptedIff | src/components/auth/RegisterForm.tsx:9-17 | accepted iff the e-mail is valid, the user name has a `length` of at least 3, the password at least 6 (UTF-16 code units), and both passwords match |
| RegisterForm.AstralPasswordAccepted | src/components/auth/RegisterForm.tsx:12 | a password of three emoji above the Basic Multilingual Plane has length six and is accepted |
| RegisterForm.IsDuplicate | src/components/auth/RegisterForm.tsx:41 | only an error object whose response message is exactly "User already exists" is a duplicate; a rejection value that is not an error object never is |
| RegisterForm.CatchFailure | src/components/auth/RegisterForm.tsx:38-48 | a duplicate-account error clears both passwords and shows the duplicate message; anything else clears nothing and shows the generic message |
| RegisterForm.ClassificationIsExact | src/components/auth/RegisterForm.tsx:41 | only the exact response message "User already exists" on an error object counts as a duplicate |
| RegisterForm.Respond | src/components/auth/RegisterForm.tsx:34-49 | an invalid form calls nothing and shows its field errors; a valid one hands email, password and user name to `register`, calls `navigate('/books')` when it resolves, and runs the `catch` block only when it rejects |
| RegisterForm.Submit | src/components/auth/RegisterForm.tsx:34-49 | over the corrected registration adapter: `navigate('/books')` is called iff the form is valid, whether or not registration succeeded; an accepted registration signs the user in; a failure leaves the session unchanged with the generic message; the duplicate message is never shown |
| RegisterForm.AcceptedRegistrationAsWritten | src/utils/api.ts:64-69 | over the registration adapter as written, a valid form whose registration the server accepts still calls `navigate('/books')`, with nobody signed in and the failure message shown |
| BookDetails.FetchReviews | src/components/books/BookDetails.tsx:39-59 | only an array answer replaces the reviews; anything else keeps them and notifies an error; loading ends false |
| BookDetails.Ready | src/components/books/BookDetails.tsx:63 | submission is allowed iff a star was chosen and the comment has a non-white-space character |
| BookDetails.ChooseStar | src/components/books/BookDetails.tsx:161 | choosing a star sets the draft's rating and keeps its comment |
| BookDetails.ChosenStarPassesRatingCheck | src/components/books/BookDetails.tsx:158-162 | after a star click, only the comment decides the guard |
| BookDetails.AfterPost | src/components/books/BookDetails.tsx:75-77 | after a successful post the draft is empty, nothing is loading or submitting, and the reviews are those a fresh fetch yields; the success notification is followed by "Failed to fetch reviews" exactly when the refetch rejects or is not an array, and by nothing otherwise |
| BookDetails.SubmitReview | src/components/books/BookDetails.tsx:61-84 | a post is sent iff the guard passes, carrying the book id, the rating and the trimmed comment; a refused draft changes nothing and shows the error; a failed post keeps the draft and shows the failure; a successful one continues as after a post; submitting ends false |
| BookDetails.PostedCommentIsClean | src/components/books/BookDetails.tsx:63-73 | a posted comment is never blank and neither starts nor ends with white space |
| BookDetails.RefetchFailureHidesSuccess | src/components/books/BookDetails.tsx:75-77 | when the refetch after a successful post fails, its error replaces the success notification |

## Findings

| source | as written | input that shows it | evidently intended | confidence | as-written member | corrected member |
|---|---|---|---|---|---|---|
| src/utils/api.ts:64-69 | `auth.register` awaits the configured client, whose response handler (src/utils/api.ts:24-31) already returns the body. It then reads `response.data.token`. | a successful registration answered with `{ token: "T", user: {...} }`: `response.data` is `undefined`, and reading `token` throws a TypeError before the token is stored | read the token from the body, store it, and return the body, so that the store signs the new user in | medium, not executed; holds if the backend answers with the bare `{ token, user }` body its declared type describes | Api.RegisterAsWrittenRejectsSuccess | Api.Register |

`AuthStore.Register` and `RegisterForm.Submit` use the corrected adapter. `AuthStore.RegisterAsWrittenNeverSignsIn` shows the effect of the code as written on the store: every registration the server accepts ends with a "Registration failed" notification and the session unchanged: nobody is signed in (registration is reachable only when signed out), and the issued token is never stored, while a token left by an earlier session stays in the slot. `RegisterForm.AcceptedRegistrationAsWritten` shows it on the form: it still calls `navigate('/books')`, which sends the signed-out user on to the login page.

## Left out

- The HTTP client instance is not modelled: its base URL, the request handler that attaches the bearer token, and the 401 handler that clears the token and forces a hard navigation to the login page. These are library plumbing and browser navigation. Only `Api.Unwrap` (its body unwrapping) appears in the model.
- Ordinary requests (`books.*`, `reviews.*`) are not modelled. Each one's settled outcome is a parameter of the operation that awaits it. The review update and delete calls are never used by the modelled components.
- URL and e-mail validity are the validation library's own checks. They appear as the parameters `isUrl` and `isEmail`.
- The notification display's 3000 ms auto-dismiss timer is time-based, and it lives in the display component, not in the store.
- Concurrency is not modelled. Each operation is one step from its start (`BookStore.Begin`) to its settlement. Two overlapping calls, and a call that never settles (leaving `loading` true), are outside the model.
- Rendering, styling and routing are not modelled. Navigation is the boolean `navigated`. This covers the application shell, navigation bar, pages, book card (confirm dialog, image fallback), floating button and input component.
- The book list's "close the dialog when `updateBook` resolves" is not modelled. The dialog's own submit is modelled directly over the store's `updateBook`.
- The edit dialog's star control displays the book's stored rating rather than the form's current value (src/components/books/EditBookModal.tsx:143). This only affects rendering, so it is not modelled.
- Routing: `/books` redirects a signed-out user to `/login` (src/App.tsx:33-35), so after a failed registration the user ends on the login page; `navigated` records only the `navigate('/books')` call.
- Console logging and date formatting are not modelled.
- Ratings in forms are integers. A fractional rating number is possible in JavaScript but never produced by the star control. The star widget's displayed rating is a real.
- An untouched text input is modelled as the empty string. The validation library rejects `undefined` and `""` alike for every field with a length or URL check.
- A field explicitly set to `null` in a server answer is not modelled; in a spread it would overwrite the old value. A `BookPatch` field is either present with a value or absent.
- The credentials passed to the login and registration requests are not modelled. The backend's answer is a parameter, so what it checks is outside the model. `RegisterForm.Respond` records which arguments the form hands to the store.
- Api.RegisterAsWritten: its contract covers only the rejected-request path. The accepted path is stated by `Api.RegisterAsWrittenRejectsSuccess`.
