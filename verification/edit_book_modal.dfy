/** The edit-book dialog without its rendering: the values it starts from,
    the star control and what saving does. Its schema is `BookForm.Schema`. */
module EditBookModal {
  import opened Wrappers
  import opened Types
  import opened BookForm
  import Text
  import BookStore
  import StarRating

  /** The values the dialog opens with: the edited book's own fields. */
  function Defaults(b: Book): (v: BookFormValues)
    ensures && v.title == b.title && v.author == b.author && v.isbn == b.isbn
            && v.description == b.description && v.coverUrl == b.coverUrl && v.rating == b.rating
    ensures ParseStatus(v.status) == Some(b.status)
  {
    StatusRoundTrip(b.status, StatusName(b.status));
    BookFormValues(b.title, b.author, b.isbn, b.description, b.coverUrl, StatusName(b.status), b.rating)
  }

  /** Choosing star `k` sets the rating value to `k` and nothing else. */
  function ChooseStar(v: BookFormValues, k: int): (r: BookFormValues)
    ensures r.rating == k
    ensures r.(rating := v.rating) == v
  {
    v.(rating := k)
  }

  /** Opening the dialog on a book and saving it untouched sends back the
      book's own fields: the form is accepted exactly when the book already
      satisfies the schema, and if the server echoes what was sent, spreading
      the answer over the book leaves it unchanged. */
  lemma UntouchedSaveRoundTrip(b: Book, isUrl: string -> bool)
    ensures Schema(Defaults(b), isUrl).Ok? <==>
              Text.JsLength(b.title) >= 1 && Text.JsLength(b.author) >= 1
              && Text.JsLength(b.isbn) >= 10 && Text.JsLength(b.description) >= 10
              && isUrl(b.coverUrl) && 0 <= b.rating <= 5
    ensures Schema(Defaults(b), isUrl).Ok? ==>
              Merge(b, PatchOf(Schema(Defaults(b), isUrl).value)) == b
  {
    StatusRoundTrip(b.status, StatusName(b.status));
  }

  /** A star chosen from the dialog's five-star control is a rating from one
      to five, so a form that was valid apart from its rating is valid once a
      star is chosen. */
  lemma ChosenStarIsValid(v: BookFormValues, i: int, isUrl: string -> bool)
    requires 0 <= i < |StarRating.Stars(StarRating.DefaultMaxRating)|
    ensures var k := StarRating.Stars(StarRating.DefaultMaxRating)[i];
            && 1 <= k <= 5
            && (Accepts(v.(rating := 0), isUrl) ==> Schema(ChooseStar(v, k), isUrl).Ok?)
  {
  }

  /** What one save leaves behind: the object handed to `onSave` (if any),
      the collection store, the last notification, and the failure that
      escapes the submit handler (if any). */
  datatype Save = Save(
    sent: Option<BookPatch>,
    store: BookStore.BookState,
    toast: Option<Toast>,
    escaped: Option<Failure>)

  /** Saving the dialog for the book `id`: a valid form is handed to
      `updateBook`, and whatever that does, its rejection is caught here. */
  function Submit(s: BookStore.BookState, id: string, v: BookFormValues, isUrl: string -> bool,
                  call: Outcome<BookPatch, Failure>): (r: Save)
    ensures r.escaped.None?
    ensures r.sent.Some? <==> Accepts(v, isUrl)
    ensures r.sent.Some? ==> r.sent.value == PatchOf(Schema(v, isUrl).value)
    ensures !Accepts(v, isUrl) ==> r.store == s && r.toast.None?
    ensures Accepts(v, isUrl) ==>
              && r.store == BookStore.UpdateBook(s, id, call).state
              && r.toast == BookStore.UpdateBook(s, id, call).toast
    ensures Accepts(v, isUrl) && call.Err? ==>
              r.store.books == s.books && BookStore.UpdateBook(s, id, call).raised == Some(call.error)
  {
    match Schema(v, isUrl)
    case Err(_) => Save(None, s, None, None)
    case Ok(input) =>
      var step := BookStore.UpdateBook(s, id, call);
      Save(Some(PatchOf(input)), step.state, step.toast, None)
  }
}
