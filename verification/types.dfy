/** The records the client exchanges with the backend, the errors an awaited
    call can reject with, and the shape of a store transition. */
module Types {
  import opened Wrappers

  /** A book's reading status, the three-valued enumeration of the `status` field. */
  datatype Status = Reading | Completed | WantToRead

  /** The wire spelling of a status. */
  function StatusName(s: Status): string {
    match s
    case Reading => "reading"
    case Completed => "completed"
    case WantToRead => "want-to-read"
  }

  /** Reads a wire spelling back; any other string is not a status. */
  function ParseStatus(name: string): (r: Option<Status>)
    ensures r.Some? ==> StatusName(r.value) == name
    ensures r.None? ==> name != "reading" && name != "completed" && name != "want-to-read"
  {
    if name == "reading" then Some(Reading)
    else if name == "completed" then Some(Completed)
    else if name == "want-to-read" then Some(WantToRead)
    else None
  }

  /** Parsing is the inverse of spelling, in both directions. */
  lemma StatusRoundTrip(s: Status, name: string)
    ensures ParseStatus(StatusName(s)) == Some(s)
    ensures ParseStatus(name) == Some(s) <==> name == StatusName(s)
  {
  }

  /** A book as the server returns it. */
  datatype Book = Book(
    id: string,
    title: string,
    author: string,
    coverUrl: string,
    description: string,
    isbn: string,
    rating: int,
    status: Status,
    dateAdded: string,
    dateCompleted: Option<string>)

  /** An object carrying some of a book's fields: what `updateBook` receives
      from the server and spreads over the local copy. A `None` field is a
      field the object does not have. */
  datatype BookPatch = BookPatch(
    id: Option<string>,
    title: Option<string>,
    author: Option<string>,
    coverUrl: Option<string>,
    description: Option<string>,
    isbn: Option<string>,
    rating: Option<int>,
    status: Option<Status>,
    dateAdded: Option<string>,
    dateCompleted: Option<string>)

  /** The patch that has no fields at all. */
  const EmptyPatch := BookPatch(None, None, None, None, None, None, None, None, None, None)

  /** The patch that carries every field of `b`. */
  function FullPatch(b: Book): BookPatch {
    BookPatch(Some(b.id), Some(b.title), Some(b.author), Some(b.coverUrl), Some(b.description),
              Some(b.isbn), Some(b.rating), Some(b.status), Some(b.dateAdded), b.dateCompleted)
  }

  /** `{ ...b, ...p }`: every field `p` carries overrides the one of `b`;
      every field it lacks keeps the value of `b`. */
  function Merge(b: Book, p: BookPatch): (r: Book)
    ensures p.id.Some? ==> r.id == p.id.value
    ensures p.id.None? ==> r.id == b.id
    ensures p.title.Some? ==> r.title == p.title.value
    ensures p.title.None? ==> r.title == b.title
    ensures p.author.Some? ==> r.author == p.author.value
    ensures p.author.None? ==> r.author == b.author
    ensures p.coverUrl.Some? ==> r.coverUrl == p.coverUrl.value
    ensures p.coverUrl.None? ==> r.coverUrl == b.coverUrl
    ensures p.description.Some? ==> r.description == p.description.value
    ensures p.description.None? ==> r.description == b.description
    ensures p.isbn.Some? ==> r.isbn == p.isbn.value
    ensures p.isbn.None? ==> r.isbn == b.isbn
    ensures p.rating.Some? ==> r.rating == p.rating.value
    ensures p.rating.None? ==> r.rating == b.rating
    ensures p.status.Some? ==> r.status == p.status.value
    ensures p.status.None? ==> r.status == b.status
    ensures p.dateAdded.Some? ==> r.dateAdded == p.dateAdded.value
    ensures p.dateAdded.None? ==> r.dateAdded == b.dateAdded
    ensures p.dateCompleted.Some? ==> r.dateCompleted == p.dateCompleted
    ensures p.dateCompleted.None? ==> r.dateCompleted == b.dateCompleted
  {
    Book(p.id.GetOr(b.id), p.title.GetOr(b.title), p.author.GetOr(b.author),
         p.coverUrl.GetOr(b.coverUrl), p.description.GetOr(b.description), p.isbn.GetOr(b.isbn),
         p.rating.GetOr(b.rating), p.status.GetOr(b.status), p.dateAdded.GetOr(b.dateAdded),
         if p.dateCompleted.Some? then p.dateCompleted else b.dateCompleted)
  }

  /** Spreading an empty object changes nothing. Spreading a whole book yields
      that book, except that a book without a completion date does not erase
      the old one: the optional field is simply absent from the object. */
  lemma MergeLaws(b: Book, u: Book)
    ensures Merge(b, EmptyPatch) == b
    ensures u.dateCompleted.Some? || b.dateCompleted.None? ==> Merge(b, FullPatch(u)) == u
    ensures u.dateCompleted.None? ==> Merge(b, FullPatch(u)) == u.(dateCompleted := b.dateCompleted)
  {
  }

  /** A patch carrying only a rating changes the rating and nothing else. */
  lemma MergeRatingOnly(b: Book, k: int)
    ensures Merge(b, EmptyPatch.(rating := Some(k))) == b.(rating := k)
  {
  }

  /** A user record as carried by an authentication response. */
  datatype User = User(id: string, email: string, username: string, avatar: Option<string>)

  /** The body of a login or registration response. The token may be missing. */
  datatype AuthBody = AuthBody(token: Option<string>, user: User)

  /** JavaScript truthiness of the body's token: present and not the empty string. */
  predicate HasToken(b: AuthBody) {
    b.token.Some? && b.token.value != ""
  }

  /** What an awaited call can reject with. An `Error` instance (a network
      error, a thrown `Error`, a `TypeError`) has a message and, for an HTTP
      client error, possibly `response.data.message`; anything else (the raw
      error payload the HTTP client passes on) is not an `Error` instance. */
  datatype Failure =
    | ErrorInstance(message: string, responseMessage: Option<string>)
    | NonError(payloadMessage: Option<string>)

  /** `error instanceof Error ? error.message : fallback`. */
  function ErrorMessage(e: Failure, fallback: string): (m: string)
    ensures e.ErrorInstance? ==> m == e.message
    ensures e.NonError? ==> m == fallback
  {
    match e
    case ErrorInstance(message, _) => message
    case NonError(_) => fallback
  }

  /** The severity of a notification. */
  datatype ToastKind = Success | Error | Info

  /** One `showToast` call. */
  datatype Toast = Toast(message: string, kind: ToastKind)

  /** The effect of one store operation: the state it leaves, the notification
      it emits (if any) and the failure it re-raises to its caller (if any). */
  datatype Step<S> = Step(state: S, toast: Option<Toast>, raised: Option<Failure>)
}
