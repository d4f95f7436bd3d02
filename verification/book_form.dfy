/** What the add and edit book forms share: their values, the fields a
    validation error can be attached to, and the object a valid form yields. */
module BookForm {
  import opened Wrappers
  import opened Types
  import Text

  /** The values of a book form: text inputs as typed, the status as the
      selected option's value, the rating as last set by the stars. An input
      the user never touched holds the empty string. */
  datatype BookFormValues = BookFormValues(
    title: string,
    author: string,
    isbn: string,
    description: string,
    coverUrl: string,
    status: string,
    rating: int)

  datatype BookField = Title | Author | Isbn | Description | CoverUrl | StatusField | RatingField

  const AllFields: set<BookField> := {Title, Author, Isbn, Description, CoverUrl, StatusField, RatingField}

  /** The object a valid form resolves to: a book without identifier and
      creation date, as `addBook` and `onSave` receive it. */
  datatype BookInput = BookInput(
    title: string,
    author: string,
    isbn: string,
    description: string,
    coverUrl: string,
    status: Status,
    rating: int)

  /** The book schema's constraints, one per field: lengths counted as
      JavaScript counts them (UTF-16 code units, without trimming), a URL as
      judged by `isUrl`, one of the three statuses, a rating from zero to
      five. */
  predicate Accepts(v: BookFormValues, isUrl: string -> bool) {
    && Text.JsLength(v.title) >= 1
    && Text.JsLength(v.author) >= 1
    && Text.JsLength(v.isbn) >= 10
    && Text.JsLength(v.description) >= 10
    && isUrl(v.coverUrl)
    && ParseStatus(v.status).Some?
    && 0 <= v.rating <= 5
  }

  /** The one constraint the schema places on a field. */
  predicate FieldOk(v: BookFormValues, f: BookField, isUrl: string -> bool) {
    match f
    case Title => Text.JsLength(v.title) >= 1
    case Author => Text.JsLength(v.author) >= 1
    case Isbn => Text.JsLength(v.isbn) >= 10
    case Description => Text.JsLength(v.description) >= 10
    case CoverUrl => isUrl(v.coverUrl)
    case StatusField => ParseStatus(v.status).Some?
    case RatingField => 0 <= v.rating <= 5
  }

  /** The fields whose constraint fails: empty exactly when the whole form
      is acceptable. */
  function FailingFields(v: BookFormValues, isUrl: string -> bool): (r: set<BookField>)
    ensures forall f :: f in r <==> !FieldOk(v, f, isUrl)
    ensures r == {} <==> Accepts(v, isUrl)
  {
    var r := set f | f in AllFields && !FieldOk(v, f, isUrl);
    assert !FieldOk(v, Title, isUrl) ==> Title in r;
    assert !FieldOk(v, Author, isUrl) ==> Author in r;
    assert !FieldOk(v, Isbn, isUrl) ==> Isbn in r;
    assert !FieldOk(v, Description, isUrl) ==> Description in r;
    assert !FieldOk(v, CoverUrl, isUrl) ==> CoverUrl in r;
    assert !FieldOk(v, StatusField, isUrl) ==> StatusField in r;
    assert !FieldOk(v, RatingField, isUrl) ==> RatingField in r;
    r
  }

  /** The book schema, declared identically by the add form and the edit
      dialog: the set of fields that fail, or the validated object when none
      does. */
  function Schema(v: BookFormValues, isUrl: string -> bool): (r: Outcome<BookInput, set<BookField>>)
    ensures r.Ok? <==> Accepts(v, isUrl)
    ensures r.Ok? ==> r.value == BookInput(v.title, v.author, v.isbn, v.description, v.coverUrl,
                                           ParseStatus(v.status).value, v.rating)
    ensures r.Err? ==> r.error != {} && forall f :: f in r.error <==> !FieldOk(v, f, isUrl)
  {
    var status := ParseStatus(v.status);
    var errors := FailingFields(v, isUrl);
    if errors == {} then
      Ok(BookInput(v.title, v.author, v.isbn, v.description, v.coverUrl, status.value, v.rating))
    else
      Err(errors)
  }

  /** The object sent as `Partial<Book>` when a valid form is saved. */
  function PatchOf(input: BookInput): (p: BookPatch)
    ensures p.id.None? && p.dateAdded.None? && p.dateCompleted.None?
    ensures && p.title == Some(input.title) && p.author == Some(input.author)
            && p.isbn == Some(input.isbn) && p.description == Some(input.description)
            && p.coverUrl == Some(input.coverUrl) && p.status == Some(input.status)
            && p.rating == Some(input.rating)
  {
    EmptyPatch.(title := Some(input.title), author := Some(input.author), isbn := Some(input.isbn),
                description := Some(input.description), coverUrl := Some(input.coverUrl),
                status := Some(input.status), rating := Some(input.rating))
  }
}
