/** Books as callers and stores hold them: records that refer to an authors array, and the
    values they denote. */
module Books {
  import opened Domain

  type Isbn = string

  /** A book record; the authors array may be shared, and may be nil. */
  datatype BookDto = BookDto(id: BookId, title: string, authors: array?<string>, isbn: Isbn)

  /** What a record denotes at some moment. */
  datatype Book = Book(id: BookId, title: string, authors: Option<seq<string>>, isbn: Isbn)

  ghost function View(b: BookDto): Book
    reads b.authors
  {
    Book(b.id, b.title, if b.authors == null then None else Some(b.authors[..]), b.isbn)
  }

  /** The array of a record, as a set. */
  function ArrayOf(b: BookDto): set<array<string>> {
    if b.authors == null then {} else {b.authors}
  }

  /** No two records refer to one array. */
  ghost predicate Unshared(books: seq<BookDto>) {
    forall i, j | 0 <= i < j < |books| :: ArrayOf(books[i]) !! ArrayOf(books[j])
  }

  /** cloneBookDto and cloneBook: same value, an array nobody else has. */
  method Clone(b: BookDto) returns (c: BookDto)
    ensures View(c) == View(b) && fresh(ArrayOf(c))
    ensures c.id == b.id && c.title == b.title && c.isbn == b.isbn
  {
    c := b;
    if b.authors != null {
      var copy := new string[b.authors.Length];
      for i := 0 to b.authors.Length
        invariant forall j | 0 <= j < i :: copy[j] == b.authors[j]
      {
        copy[i] := b.authors[i];
      }
      assert copy[..] == b.authors[..];
      c := b.(authors := copy);
    }
  }

  /** append(books, clone), as the listings do. */
  method AppendClone(books: seq<BookDto>, book: BookDto) returns (longer: seq<BookDto>)
    requires Unshared(books)
    ensures |longer| == |books| + 1 && longer[..|books|] == books && Unshared(longer)
    ensures var last := longer[|books|]; View(last) == View(book) && fresh(ArrayOf(last))
  {
    var copied := Clone(book);
    longer := books + [copied];
  }
}
