/** The collection store: the user's books, a loading flag and the last error.
    Each operation takes the settled outcome of its backend call and returns
    the state it leaves, the notification it emits and the failure it
    re-raises. */
module BookStore {
  import opened Wrappers
  import opened Types

  datatype BookState = BookState(books: seq<Book>, loading: bool, error: Option<string>)

  /** No books, not loading, no error. */
  const Initial := BookState([], false, None)

  const FetchFailed := "Failed to fetch books"
  const AddFailed := "Failed to add book"
  const UpdateFailed := "Failed to update book"
  const DeleteFailed := "Failed to delete book"
  const Added := "Book added successfully!"
  const Updated := "Book updated successfully!"
  const Deleted := "Book deleted successfully!"

  /** The failure an outcome carries, if it is a rejection. */
  function FailureOf<T>(call: Outcome<T, Failure>): (f: Option<Failure>)
    ensures f.None? <==> call.Ok?
    ensures call.Err? ==> f == Some(call.error)
  {
    match call
    case Ok(_) => None
    case Err(e) => Some(e)
  }

  /** The state every operation shows while its call is in flight. */
  function Begin(s: BookState): (r: BookState)
    ensures r.loading && r.error.None?
    ensures r.books == s.books
  {
    s.(loading := true, error := None)
  }

  /** The discipline every operation follows, whatever its reconciliation:
      it ends not loading; on success it has no error, re-raises nothing and
      emits exactly its success notification (if it has one); on failure it
      keeps the books, records the failure's message (or the operation's
      fallback text), emits that message as an error, and re-raises the
      failure exactly when the operation is a write. */
  predicate Disciplined(s: BookState, r: Step<BookState>, failure: Option<Failure>,
                        fallback: string, success: Option<string>, rethrows: bool)
  {
    && !r.state.loading
    && (failure.None? ==>
          && r.state.error.None?
          && r.raised.None?
          && r.toast == (if success.Some? then Some(Toast(success.value, Success)) else None))
    && (failure.Some? ==>
          var m := ErrorMessage(failure.value, fallback);
          && r.state.books == s.books
          && r.state.error == Some(m)
          && r.toast == Some(Toast(m, Error))
          && r.raised == (if rethrows then failure else None))
  }

  /** The `catch` and `finally` blocks shared by every operation: they follow
      the failure half of the discipline. */
  function Fail(begun: BookState, e: Failure, fallback: string, rethrows: bool): (r: Step<BookState>)
    ensures Disciplined(begun, r, Some(e), fallback, None, rethrows)
  {
    var m := ErrorMessage(e, fallback);
    Step(begun.(error := Some(m), loading := false), Some(Toast(m, Error)),
         if rethrows then Some(e) else None)
  }

  /** How many entries carry the identifier. */
  function CountId(bs: seq<Book>, id: string): nat
    decreases |bs|
  {
    if bs == [] then 0 else (if bs[0].id == id then 1 else 0) + CountId(bs[1..], id)
  }

  /** `books.map(book => book._id === id ? { ...book, ...u } : book)`. */
  function MergeById(bs: seq<Book>, id: string, u: BookPatch): (r: seq<Book>)
    ensures |r| == |bs|
    ensures forall i :: 0 <= i < |bs| ==>
              r[i] == if bs[i].id == id then Merge(bs[i], u) else bs[i]
    decreases |bs|
  {
    if bs == [] then []
    else [if bs[0].id == id then Merge(bs[0], u) else bs[0]] + MergeById(bs[1..], id, u)
  }

  /** `books.filter(book => book._id !== id)`: every entry with the
      identifier goes, each other entry stays as often as it occurred. */
  function RemoveById(bs: seq<Book>, id: string): (r: seq<Book>)
    ensures forall i :: 0 <= i < |r| ==> r[i].id != id
    ensures forall b :: multiset(r)[b] == if b.id == id then 0 else multiset(bs)[b]
    ensures |r| == |bs| - CountId(bs, id)
    decreases |bs|
  {
    if bs == [] then []
    else
      assert multiset(bs) == multiset([bs[0]]) + multiset(bs[1..]) by {
        assert bs == [bs[0]] + bs[1..];
      }
      if bs[0].id == id then RemoveById(bs[1..], id)
      else [bs[0]] + RemoveById(bs[1..], id)
  }

  /** `fetchBooks()`: the server's list replaces the collection; a failure is
      recorded and notified but not re-raised; success is silent. */
  function FetchBooks(s: BookState, call: Outcome<seq<Book>, Failure>): (r: Step<BookState>)
    ensures Disciplined(s, r, FailureOf(call), FetchFailed, None, false)
    ensures call.Ok? ==> r.state.books == call.value
  {
    var begun := Begin(s);
    match call
    case Ok(list) => Step(begun.(books := list, loading := false), None, None)
    case Err(e) => Fail(begun, e, FetchFailed, false)
  }

  /** `addBook(data)`: the server's book is appended at the end. */
  function AddBook(s: BookState, call: Outcome<Book, Failure>): (r: Step<BookState>)
    ensures Disciplined(s, r, FailureOf(call), AddFailed, Some(Added), true)
    ensures call.Ok? ==>
              && |r.state.books| == |s.books| + 1
              && r.state.books[..|s.books|] == s.books
              && r.state.books[|s.books|] == call.value
  {
    var begun := Begin(s);
    match call
    case Ok(b) => Step(begun.(books := begun.books + [b], loading := false), Some(Toast(Added, Success)), None)
    case Err(e) => Fail(begun, e, AddFailed, true)
  }

  /** `updateBook(id, data)`: the server's answer is spread over every entry
      with the identifier; all other entries stay as they were. */
  function UpdateBook(s: BookState, id: string, call: Outcome<BookPatch, Failure>): (r: Step<BookState>)
    ensures Disciplined(s, r, FailureOf(call), UpdateFailed, Some(Updated), true)
    ensures call.Ok? ==>
              && |r.state.books| == |s.books|
              && forall i :: 0 <= i < |s.books| ==>
                   r.state.books[i] == if s.books[i].id == id then Merge(s.books[i], call.value) else s.books[i]
  {
    var begun := Begin(s);
    match call
    case Ok(u) => Step(begun.(books := MergeById(begun.books, id, u), loading := false), Some(Toast(Updated, Success)), None)
    case Err(e) => Fail(begun, e, UpdateFailed, true)
  }

  /** `deleteBook(id)`: after the server confirms, every entry with the
      identifier leaves the collection, not only the first. */
  function DeleteBook(s: BookState, id: string, call: Outcome<(), Failure>): (r: Step<BookState>)
    ensures Disciplined(s, r, FailureOf(call), DeleteFailed, Some(Deleted), true)
    ensures call.Ok? ==>
              && (forall i :: 0 <= i < |r.state.books| ==> r.state.books[i].id != id)
              && (forall b :: multiset(r.state.books)[b] == if b.id == id then 0 else multiset(s.books)[b])
              && |r.state.books| == |s.books| - CountId(s.books, id)
    ensures call.Ok? ==> r.state.books == RemoveById(s.books, id)
  {
    var begun := Begin(s);
    match call
    case Ok(_) => Step(begun.(books := RemoveById(begun.books, id), loading := false), Some(Toast(Deleted, Success)), None)
    case Err(e) => Fail(begun, e, DeleteFailed, true)
  }

  /** No entry carries the identifier exactly when none is counted. */
  lemma {:induction false} CountIdZero(bs: seq<Book>, id: string)
    ensures CountId(bs, id) == 0 <==> forall i :: 0 <= i < |bs| ==> bs[i].id != id
    decreases |bs|
  {
    if bs != [] {
      CountIdZero(bs[1..], id);
      assert forall i :: 1 <= i < |bs| ==> bs[i] == bs[1..][i - 1];
    }
  }

  /** Filtering keeps the relative order: it distributes over concatenation. */
  lemma {:induction false} RemoveByIdAppend(a: seq<Book>, b: seq<Book>, id: string)
    ensures RemoveById(a + b, id) == RemoveById(a, id) + RemoveById(b, id)
    decreases |a|
  {
    if a == [] {
      assert a + b == b;
    } else {
      assert (a + b)[0] == a[0];
      assert (a + b)[1..] == a[1..] + b;
      RemoveByIdAppend(a[1..], b, id);
      if a[0].id != id {
        var x, y := RemoveById(a[1..], id), RemoveById(b, id);
        assert [a[0]] + (x + y) == ([a[0]] + x) + y;
      }
    }
  }

  /** Filtering out an identifier no entry has changes nothing. */
  lemma {:induction false} RemoveAbsent(bs: seq<Book>, id: string)
    requires forall i :: 0 <= i < |bs| ==> bs[i].id != id
    ensures RemoveById(bs, id) == bs
    decreases |bs|
  {
    if bs != [] {
      assert bs[0].id != id;
      RemoveAbsent(bs[1..], id);
      assert [bs[0]] + bs[1..] == bs;
    }
  }

  /** An update or a deletion for an identifier no entry has is a silent no-op
      on the collection (the notification still reports success). */
  lemma AbsentIdIsNoOp(s: BookState, id: string, u: BookPatch)
    requires forall i :: 0 <= i < |s.books| ==> s.books[i].id != id
    ensures UpdateBook(s, id, Ok(u)).state.books == s.books
    ensures DeleteBook(s, id, Ok(())).state.books == s.books
  {
    RemoveAbsent(s.books, id);
  }

  /** A confirmed deletion shortens the collection exactly when some entry
      carries the identifier. */
  lemma DeleteShrinksIffPresent(s: BookState, id: string)
    ensures |DeleteBook(s, id, Ok(())).state.books| < |s.books| <==>
              exists i :: 0 <= i < |s.books| && s.books[i].id == id
  {
    CountIdZero(s.books, id);
  }

  /** An update whose answer carries only a rating changes that field of the
      matching entries and nothing else, anywhere in the collection. */
  lemma RatingOnlyUpdate(s: BookState, id: string, k: int)
    ensures var r := UpdateBook(s, id, Ok(EmptyPatch.(rating := Some(k)))).state.books;
            && |r| == |s.books|
            && forall i :: 0 <= i < |s.books| ==>
                 r[i] == if s.books[i].id == id then s.books[i].(rating := k) else s.books[i]
  {
  }

  /** Adding a book with a fresh identifier and then deleting that identifier
      restores the collection exactly. */
  lemma AddThenDeleteRestores(s: BookState, b: Book)
    requires forall i :: 0 <= i < |s.books| ==> s.books[i].id != b.id
    ensures DeleteBook(AddBook(s, Ok(b)).state, b.id, Ok(())).state.books == s.books
  {
    RemoveByIdAppend(s.books, [b], b.id);
    RemoveAbsent(s.books, b.id);
  }

  /** Deletion is not "first match only": two entries with one identifier both go. */
  lemma DeleteRemovesEveryMatch(s: BookState, b: Book, c: Book)
    requires s.books == [b, c] && b.id == c.id
    ensures DeleteBook(s, b.id, Ok(())).state.books == []
  {
  }

  /** After any operation the error slot is empty exactly when the call
      succeeded, and a failure is re-raised exactly when a write failed. */
  lemma ErrorIffFailed(s: BookState, id: string, books: Outcome<seq<Book>, Failure>,
                       added: Outcome<Book, Failure>, patch: Outcome<BookPatch, Failure>,
                       deleted: Outcome<(), Failure>)
    ensures FetchBooks(s, books).state.error.None? <==> books.Ok?
    ensures FetchBooks(s, books).raised.None?
    ensures AddBook(s, added).state.error.None? <==> added.Ok?
    ensures AddBook(s, added).raised.Some? <==> added.Err?
    ensures UpdateBook(s, id, patch).state.error.None? <==> patch.Ok?
    ensures UpdateBook(s, id, patch).raised.Some? <==> patch.Err?
    ensures DeleteBook(s, id, deleted).state.error.None? <==> deleted.Ok?
    ensures DeleteBook(s, id, deleted).raised.Some? <==> deleted.Err?
  {
  }
}
