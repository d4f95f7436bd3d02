/** The add-book form without its rendering: its schema, its default values
    and what submitting it does. */
module AddBookForm {
  import opened Wrappers
  import opened Types
  import opened BookForm
  import BookStore
  import Text

  /** The form's default values: only the status and the rating are given. */
  const Defaults := BookFormValues("", "", "", "", "", "want-to-read", 0)

  /** The defaults never fail on status or rating, so an untouched form is
      rejected only for the fields the user must fill in. */
  lemma DefaultsValid(isUrl: string -> bool)
    ensures Schema(Defaults, isUrl).Err?
    ensures StatusField !in Schema(Defaults, isUrl).error
    ensures RatingField !in Schema(Defaults, isUrl).error
    ensures {Title, Author, Isbn, Description} <= Schema(Defaults, isUrl).error
  {
  }

  /** Lengths are counted as typed: text made only of spaces passes. */
  lemma WhitespaceAccepted(v: BookFormValues, isUrl: string -> bool)
    requires v.title == " " && v.author == " "
    requires v.isbn == "          " && v.description == "          "
    requires isUrl(v.coverUrl) && v.status == "reading" && v.rating == 3
    ensures Schema(v, isUrl).Ok?
  {
    Text.JsLengthBmp(v.isbn);
    Text.JsLengthBmp(v.description);
  }

  /** Lengths are UTF-16 code units: a description of five emoji outside the
      Basic Multilingual Plane has length ten and passes, while five letters
      do not. */
  lemma AstralDescriptionAccepted(v: BookFormValues, isUrl: string -> bool)
    requires v.description == "\U{1F44D}\U{1F44D}\U{1F44D}\U{1F44D}\U{1F44D}"
    ensures |v.description| == 5
    ensures FieldOk(v, Description, isUrl)
    ensures !FieldOk(v.(description := "Great"), Description, isUrl)
  {
    var thumb := "\U{1F44D}";
    assert thumb[1..] == [];
    var two := thumb + thumb;
    Text.JsLengthAppend(thumb, thumb);
    Text.JsLengthAppend(two, two);
    Text.JsLengthAppend(two + two, thumb);
    assert v.description == two + two + thumb;
    Text.JsLengthBmp("Great");
  }

  /** What one submission leaves behind: the object handed to `addBook` (if
      any), the collection store, the last notification, the field errors
      shown, and whether the page moved on to the book list. */
  datatype Submission = Submission(
    sent: Option<BookInput>,
    store: BookStore.BookState,
    toast: Option<Toast>,
    errors: set<BookField>,
    navigated: bool)

  /** Submitting the form: an invalid form reaches no handler; a valid one is
      passed to `addBook`, and the page moves to the book list only if that
      resolves. A rejection is caught here and keeps the user on the form. */
  function Submit(s: BookStore.BookState, v: BookFormValues, isUrl: string -> bool,
                  call: Outcome<Book, Failure>): (r: Submission)
    ensures r.sent.Some? <==> Accepts(v, isUrl)
    ensures r.sent.Some? ==> r.sent.value == Schema(v, isUrl).value
    ensures r.navigated <==> Accepts(v, isUrl) && call.Ok?
    ensures !Accepts(v, isUrl) ==>
              && r.store == s && r.toast.None? && r.errors != {}
              && forall f :: f in r.errors <==> !FieldOk(v, f, isUrl)
    ensures Accepts(v, isUrl) ==> r.errors == {} && r.store == BookStore.AddBook(s, call).state
    ensures r.navigated ==> r.store.books == s.books + [call.value]
    ensures Accepts(v, isUrl) && call.Err? ==> r.store.books == s.books && r.store.error.Some?
  {
    match Schema(v, isUrl)
    case Err(errors) => Submission(None, s, None, errors, false)
    case Ok(input) =>
      var step := BookStore.AddBook(s, call);
      Submission(Some(input), step.state, step.toast, {}, step.raised.None?)
  }
}
