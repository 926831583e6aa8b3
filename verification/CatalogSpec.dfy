/** The catalog facade on values: what each operation does to the stored books and the cached
    entries, with injected cache faults and expiring entries. */
module CatalogSpec {
  import opened Domain
  import opened Books
  import opened BookSchema
  import opened CatalogRepository

  datatype Shop = Shop(books: map<BookId, Book>, order: seq<BookId>, entries: map<Isbn, Book>)

  /** How a cache write goes: it works, it is refused, or it takes effect and still reports an
      error. */
  datatype Write = Works | Refused | Unacknowledged

  datatype CatalogError = InvalidBook | GatewayFailed | DuplicateIsbn | BookNotFound | CacheFailed

  datatype Answer = Returned(book: Book) | Deletion | Rejected(error: CatalogError)

  /** An operation with what the gateway answers and the faults injected into it. Expire is an
      entry reaching its time-to-live. */
  datatype Op =
    | Add(id: BookId, title: string, authors: seq<string>, raw: string, gateway: Gateway)
    | Find(isbn: Isbn, getFails: bool, write: Write)
    | Update(id: BookId, newTitle: Option<string>, newAuthors: Option<seq<string>>, write: Write)
    | Delete(id: BookId, write: Write)
    | Expire(isbn: Isbn)

  function Lookup(s: Shop, isbn: Isbn): Option<Book> {
    FirstWithIsbn(s.books, s.order, isbn)
  }

  function Stored(s: Shop, book: Book): Shop {
    s.(books := s.books[book.id := book], order := OrderSaved(s.order, book.id))
  }

  function EntrySet(s: Shop, isbn: Isbn, book: Book, write: Write): Shop {
    if write.Refused? then s else s.(entries := s.entries[isbn := book])
  }

  function EntryGone(s: Shop, isbn: Isbn, write: Write): Shop {
    if write.Refused? then s else s.(entries := s.entries - {isbn})
  }

  datatype Parsed = Valid(book: Book) | Invalid(error: CatalogError)

  /** What AddBook would save: the parsed ISBN, and title and authors as merged, then parsed. */
  function NewBook(id: BookId, title: string, authors: seq<string>, raw: string, gateway: Gateway): Parsed {
    match ParseIsbn(raw)
    case None => Invalid(InvalidBook)
    case Some(isbn) =>
      if gateway.Unreachable? then Invalid(GatewayFailed)
      else
        var t, names := Trim(MergedTitle(title, gateway)), TrimmedNames(MergedAuthors(authors, gateway));
        if t == "" || names == [] then Invalid(InvalidBook) else Valid(Book(id, t, Some(names), isbn))
  }

  function AddParsed(s: Shop, book: Book): (Shop, Answer) {
    if Lookup(s, book.isbn).Some? then (s, Rejected(DuplicateIsbn)) else (Stored(s, book), Returned(book))
  }

  function AddBook(s: Shop, id: BookId, title: string, authors: seq<string>, raw: string, gateway: Gateway)
    : (Shop, Answer)
  {
    match NewBook(id, title, authors, raw, gateway)
    case Invalid(error) => (s, Rejected(error))
    case Valid(book) => AddParsed(s, book)
  }

  /** The cache answers if it can; otherwise the repository does, and the cache is told. A
      missing book is not cached. */
  function FindBook(s: Shop, isbn: Isbn, getFails: bool, write: Write): (Shop, Answer) {
    if getFails then (s, Rejected(CacheFailed))
    else if isbn in s.entries then (s, Returned(s.entries[isbn]))
    else
      match Lookup(s, isbn)
      case None => (s, Rejected(BookNotFound))
      case Some(book) =>
        (EntrySet(s, isbn, book, write), if write.Works? then Returned(book) else Rejected(CacheFailed))
  }

  predicate ValidPatch(newTitle: Option<string>, newAuthors: Option<seq<string>>) {
    && (newTitle.Some? || newAuthors.Some?)
    && (newTitle.Some? ==> Trim(newTitle.value) != "")
    && (newAuthors.Some? ==> TrimmedNames(newAuthors.value) != [])
  }

  function ParsedTitle(newTitle: Option<string>): Option<string> {
    if newTitle.Some? then Some(Trim(newTitle.value)) else None
  }

  function ParsedAuthors(newAuthors: Option<seq<string>>): Option<seq<string>> {
    if newAuthors.Some? then Some(TrimmedNames(newAuthors.value)) else None
  }

  /** applyBookPatch */
  function Patched(book: Book, newTitle: Option<string>, newAuthors: Option<seq<string>>): Book {
    Book(book.id,
         if newTitle.Some? then newTitle.value else book.title,
         if newAuthors.Some? then newAuthors else book.authors,
         book.isbn)
  }

  /** The save stays even when the cache write fails. */
  function Updated(s: Shop, id: BookId, newTitle: Option<string>, newAuthors: Option<seq<string>>, write: Write)
    : (Shop, Answer)
  {
    if id !in s.books then (s, Rejected(BookNotFound))
    else
      var updated := Patched(s.books[id], newTitle, newAuthors);
      (EntrySet(Stored(s, updated), s.books[id].isbn, updated, write),
       if write.Works? then Returned(updated) else Rejected(CacheFailed))
  }

  function UpdateBook(s: Shop, id: BookId, newTitle: Option<string>, newAuthors: Option<seq<string>>, write: Write)
    : (Shop, Answer)
  {
    if !ValidPatch(newTitle, newAuthors) then (s, Rejected(InvalidBook))
    else Updated(s, id, ParsedTitle(newTitle), ParsedAuthors(newAuthors), write)
  }

  function DeleteBook(s: Shop, id: BookId, write: Write): (Shop, Answer) {
    if id !in s.books then (s, Rejected(BookNotFound))
    else
      (EntryGone(s.(books := s.books - {id}, order := Without(s.order, id)), s.books[id].isbn, write),
       if write.Works? then Deletion else Rejected(CacheFailed))
  }

  function Perform(s: Shop, op: Op): (Shop, Answer) {
    match op
    case Add(id, title, authors, raw, gateway) => AddBook(s, id, title, authors, raw, gateway)
    case Find(isbn, getFails, write) => FindBook(s, isbn, getFails, write)
    case Update(id, newTitle, newAuthors, write) => UpdateBook(s, id, newTitle, newAuthors, write)
    case Delete(id, write) => DeleteBook(s, id, write)
    case Expire(isbn) => (EntryGone(s, isbn, Works), Deletion)
  }

  /** New ids are new; nothing else is asked of a caller. */
  predicate CanPerform(s: Shop, op: Op) {
    op.Add? ==> op.id !in s.books
  }

  const EMPTY_SHOP := Shop(map[], [], map[])

  ghost predicate CanRun(s: Shop, ops: seq<Op>)
    decreases |ops|
  {
    ops != [] ==> CanPerform(s, ops[0]) && CanRun(Perform(s, ops[0]).0, ops[1..])
  }

  function After(s: Shop, ops: seq<Op>): Shop
    decreases |ops|
  {
    if ops == [] then s else After(Perform(s, ops[0]).0, ops[1..])
  }

  function Answers(s: Shop, ops: seq<Op>): (answers: seq<Answer>)
    ensures |answers| == |ops|
    decreases |ops|
  {
    if ops == [] then [] else [Perform(s, ops[0]).1] + Answers(Perform(s, ops[0]).0, ops[1..])
  }

  lemma {:induction false} OneMoreOp(s: Shop, ops: seq<Op>, op: Op)
    ensures After(s, ops + [op]) == Perform(After(s, ops), op).0
    ensures Answers(s, ops + [op]) == Answers(s, ops) + [Perform(After(s, ops), op).1]
    decreases |ops|
  {
    if ops == [] {
      assert [op][1..] == [];
      assert ops + [op] == [op];
    } else {
      OneMoreOp(Perform(s, ops[0]).0, ops[1..], op);
      assert (ops + [op])[1..] == ops[1..] + [op];
    }
  }
}
