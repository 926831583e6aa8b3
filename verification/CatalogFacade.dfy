/** The catalog facade over the repository, the cache and what the metadata gateway answers. */
module CatalogFacade {
  import opened Domain
  import opened Books
  import opened BookSchema
  import opened CatalogRepository
  import opened BookCache
  import opened CatalogSpec

  datatype Reply = Got(book: BookDto) | Gone | Error(error: CatalogError)

  function Handed(reply: Reply): set<array<string>> {
    if reply.Got? then ArrayOf(reply.book) else {}
  }

  /** What a reply denotes. */
  ghost function Said(reply: Reply): Answer
    reads Handed(reply)
  {
    match reply
    case Got(book) => Returned(View(book))
    case Gone => Deletion
    case Error(error) => Rejected(error)
  }

  ghost function Names(authors: array?<string>): seq<string>
    reads authors
  {
    if authors == null then [] else authors[..]
  }

  ghost function Named(authors: Option<array?<string>>): Option<seq<string>>
    reads if authors.Some? then {authors.value} else {}
  {
    if authors.Some? then Some(Names(authors.value)) else None
  }

  /** The gateway's answer to a lookup; its authors come in an array. */
  datatype GatewayReply = Failed | NoMetadata | Metadata(title: string, authors: array<string>)

  ghost function Heard(reply: GatewayReply): Gateway
    reads if reply.Metadata? then {reply.authors} else {}
  {
    match reply
    case Failed => Unreachable
    case NoMetadata => Unknown
    case Metadata(title, authors) => Known(title, authors[..])
  }

  /** trimAndFilterAuthors: trimmed, without the blank ones, in an array of their own. */
  method FilterAuthors(authors: array?<string>) returns (filtered: array<string>)
    ensures fresh(filtered) && filtered[..] == TrimmedNames(Names(authors))
  {
    var kept: seq<string> := [];
    if authors != null {
      for i := 0 to authors.Length
        invariant kept == TrimmedNames(authors[..i])
      {
        assert authors[..i + 1][..i] == authors[..i];
        var trimmed := Trim(authors[i]);
        if trimmed != "" { kept := kept + [trimmed]; }
      }
      assert authors[..authors.Length] == authors[..];
    }
    filtered := new string[|kept|](i requires 0 <= i < |kept| => kept[i]);
    assert filtered[..] == kept;
  }

  datatype ParsedReply = Fine(book: BookDto) | Bad(error: CatalogError)

  /** Enrichment and parsing of a new book: the ISBN first, then the gateway, then the merged
      title and authors, whose parse reads the ISBN once more. */
  method EnrichAndParse(id: BookId, title: string, authors: array?<string>, raw: string, reply: GatewayReply)
    returns (parsed: ParsedReply)
    ensures match parsed
            case Fine(book) => NewBook(id, title, Names(authors), raw, Heard(reply)) == Valid(View(book))
            case Bad(error) => NewBook(id, title, Names(authors), raw, Heard(reply)) == Invalid(error)
    ensures parsed.Fine? ==> fresh(ArrayOf(parsed.book))
  {
    var isbn := ParseIsbn(raw);
    if isbn.None? { return Bad(InvalidBook); }
    if reply.Failed? { return Bad(GatewayFailed); }
    var mergedTitle, mergedAuthors := title, authors;
    if reply.Metadata? {
      if title == "" { mergedTitle := reply.title; }
      if authors == null || authors.Length == 0 { mergedAuthors := reply.authors; }
    }
    var filtered := FilterAuthors(mergedAuthors);
    ParsedIsbnParses(raw);
    if Trim(mergedTitle) == "" || filtered.Length == 0 || ParseIsbn(isbn.value).None? { return Bad(InvalidBook); }
    parsed := Fine(BookDto(id, Trim(mergedTitle), filtered, ParseIsbn(isbn.value).value));
  }

  class Facade {
    const repository: Repository
    const cache: Cache

    ghost predicate Valid()
      reads repository, repository.bookOrder, repository.Repr, cache, cache.Repr
    {
      repository.Valid() && cache.Valid()
    }

    ghost function State(): Shop
      reads repository, cache
    {
      Shop(repository.Books, repository.Order, cache.Entries)
    }

    /** Every authors array the repository or the cache keeps. */
    ghost function Repr(): set<array<string>>
      reads repository, cache
    {
      repository.Repr + cache.Repr
    }

    constructor ()
      ensures Valid() && State() == EMPTY_SHOP && Repr() == {}
      ensures fresh(repository) && fresh(cache) && fresh(repository.bookOrder)
    {
      repository := new Repository();
      cache := new Cache();
    }

    /** A cache write with an injected fault. */
    method CacheSet(isbn: Isbn, book: BookDto, write: Write) returns (ok: bool)
      requires cache.Valid()
      modifies cache
      ensures cache.Valid() && fresh(cache.Repr - old(cache.Repr)) && ok == write.Works?
      ensures cache.Entries == if write.Refused? then old(cache.Entries) else old(cache.Entries)[isbn := View(book)]
    {
      if !write.Refused? { cache.Set(isbn, book); }
      ok := write.Works?;
    }

    method CacheEvict(isbn: Isbn, write: Write) returns (ok: bool)
      requires cache.Valid()
      modifies cache
      ensures cache.Valid() && cache.Repr == old(cache.Repr) && ok == write.Works?
      ensures cache.Entries == if write.Refused? then old(cache.Entries) else old(cache.Entries) - {isbn}
    {
      if !write.Refused? { cache.Evict(isbn); }
      ok := write.Works?;
    }

    /** The repository's answer for an ISBN. */
    method Consult(isbn: Isbn) returns (found: Option<BookDto>)
      requires Valid()
      ensures found.Some? ==> fresh(ArrayOf(found.value))
      ensures Lookup(State(), isbn) == if found.Some? then Some(View(found.value)) else None
    {
      found := repository.FindBookByIsbn(isbn);
    }

    /** Saving a book that nobody shares leaves it unshared. */
    method Save(book: BookDto)
      requires Valid() && ArrayOf(book) !! Repr()
      modifies repository, repository.bookOrder
      ensures Valid() && (repository.bookOrder == old(repository.bookOrder) || fresh(repository.bookOrder))
      ensures State() == Stored(old(State()), View(book))
      ensures fresh(repository.Repr - old(repository.Repr)) && fresh(cache.Repr - old(cache.Repr))
      ensures ArrayOf(book) !! Repr()
    {
      repository.SaveBook(book);
    }

    /** The cache write at the end of FindBook and UpdateBook. */
    method Fill(isbn: Isbn, book: BookDto, write: Write) returns (reply: Reply)
      requires Valid() && ArrayOf(book) !! Repr()
      modifies cache
      ensures Valid()
      ensures State() == EntrySet(old(State()), isbn, old(View(book)), write)
      ensures Said(reply) == if write.Works? then Returned(old(View(book))) else Rejected(CacheFailed)
      ensures fresh(cache.Repr - old(cache.Repr)) && Handed(reply) <= ArrayOf(book) && ArrayOf(book) !! Repr()
    {
      var ok := CacheSet(isbn, book, write);
      reply := if ok then Got(book) else Error(CacheFailed);
    }

    /** rejectDuplicateIsbn, then the save. */
    method AddParsed(book: BookDto) returns (reply: Reply)
      requires Valid() && ArrayOf(book) !! Repr()
      modifies repository, repository.bookOrder
      ensures Valid() && (repository.bookOrder == old(repository.bookOrder) || fresh(repository.bookOrder))
      ensures State() == CatalogSpec.AddParsed(old(State()), old(View(book))).0
      ensures Said(reply) == CatalogSpec.AddParsed(old(State()), old(View(book))).1
      ensures fresh(repository.Repr - old(repository.Repr)) && fresh(cache.Repr - old(cache.Repr))
      ensures Handed(reply) <= ArrayOf(book) && ArrayOf(book) !! Repr()
    {
      var existing := Consult(book.isbn);
      if existing.Some? { return Error(DuplicateIsbn); }
      Save(book);
      reply := Got(book);
    }

    /** The id is the one newID mints, the gateway's reply the one its lookup gives. */
    method AddBook(id: BookId, title: string, authors: array?<string>, raw: string, gateway: GatewayReply)
      returns (reply: Reply)
      requires Valid()
      modifies repository, repository.bookOrder
      ensures Valid() && (repository.bookOrder == old(repository.bookOrder) || fresh(repository.bookOrder))
      ensures (State(), Said(reply)) ==
        CatalogSpec.AddBook(old(State()), id, title, old(Names(authors)), raw, old(Heard(gateway)))
      ensures fresh(repository.Repr - old(repository.Repr)) && fresh(cache.Repr - old(cache.Repr))
      ensures fresh(Handed(reply)) && Handed(reply) !! Repr()
    {
      var parsed := EnrichAndParse(id, title, authors, raw, gateway);
      match parsed
      case Bad(error) => reply := Error(error);
      case Fine(book) => reply := AddParsed(book);
    }

    method FindBook(isbn: Isbn, getFails: bool, write: Write) returns (reply: Reply)
      requires Valid()
      modifies cache
      ensures Valid()
      ensures (State(), Said(reply)) == CatalogSpec.FindBook(old(State()), isbn, getFails, write)
      ensures fresh(cache.Repr - old(cache.Repr)) && fresh(Handed(reply)) && Handed(reply) !! Repr()
    {
      if getFails { return Error(CacheFailed); }
      var cached := cache.Get(isbn);
      if cached.Some? { return Got(cached.value); }
      var book := Consult(isbn);
      if book.None? { return Error(BookNotFound); }
      reply := Fill(isbn, book.value, write);
    }

    /** applyBookPatch on the stored record with an id, if there is one. */
    method PatchStored(id: BookId, newTitle: Option<string>, newAuthors: Option<array<string>>)
      returns (found: bool, updated: BookDto)
      requires Valid() && (newAuthors.Some? ==> newAuthors.value !in Repr())
      ensures found == (id in State().books)
      ensures var authors := if newAuthors.Some? then Some(newAuthors.value[..]) else None;
        found ==> View(updated) == Patched(State().books[id], newTitle, authors)
      ensures found ==> if newAuthors.Some? then updated.authors == newAuthors.value else fresh(ArrayOf(updated))
    {
      var existing := repository.FindBookById(id);
      if existing.None? { return false, BookDto(id, "", null, ""); }
      updated := existing.value;
      if newTitle.Some? { updated := updated.(title := newTitle.value); }
      if newAuthors.Some? { updated := updated.(authors := newAuthors.value); }
      found := true;
    }

    method SaveThrough(isbn: Isbn, updated: BookDto, write: Write) returns (reply: Reply)
      requires Valid() && ArrayOf(updated) !! Repr()
      modifies repository, repository.bookOrder, cache
      ensures Valid() && (repository.bookOrder == old(repository.bookOrder) || fresh(repository.bookOrder))
      ensures State() == EntrySet(Stored(old(State()), old(View(updated))), isbn, old(View(updated)), write)
      ensures Said(reply) == if write.Works? then Returned(old(View(updated))) else Rejected(CacheFailed)
      ensures Handed(reply) <= ArrayOf(updated)
      ensures fresh(repository.Repr - old(repository.Repr)) && fresh(cache.Repr - old(cache.Repr))
      ensures ArrayOf(updated) !! Repr()
    {
      Save(updated);
      reply := Fill(isbn, updated, write);
    }

    method UpdateParsed(id: BookId, newTitle: Option<string>, parsed: Option<array<string>>, write: Write)
      returns (reply: Reply)
      requires Valid() && (parsed.Some? ==> parsed.value !in Repr())
      modifies repository, repository.bookOrder, cache
      ensures Valid() && (repository.bookOrder == old(repository.bookOrder) || fresh(repository.bookOrder))
      ensures (State(), Said(reply)) == Updated(old(State()), id, newTitle,
        old(if parsed.Some? then Some(parsed.value[..]) else None), write)
      ensures fresh(repository.Repr - old(repository.Repr)) && fresh(cache.Repr - old(cache.Repr))
      ensures Handed(reply) !! Repr()
      ensures forall a | a in Handed(reply) :: fresh(a) || parsed == Some(a)
    {
      var found, updated := PatchStored(id, newTitle, parsed);
      if !found { return Error(BookNotFound); }
      reply := SaveThrough(updated.isbn, updated, write);
    }

    /** ParseUpdateBook: a field the patch does not set is None. */
    method ParsePatch(newTitle: Option<string>, newAuthors: Option<array?<string>>)
      returns (ok: bool, title: Option<string>, authors: Option<array<string>>)
      ensures ok == ValidPatch(newTitle, Named(newAuthors))
      ensures ok ==> title == ParsedTitle(newTitle) && (authors.Some? <==> newAuthors.Some?)
      ensures authors.Some? ==>
        newAuthors.Some? && fresh(authors.value) && authors.value[..] == TrimmedNames(Names(newAuthors.value))
    {
      title, authors := None, None;
      if newTitle.None? && newAuthors.None? { return false, None, None; }
      if newTitle.Some? {
        title := Some(Trim(newTitle.value));
        if title.value == "" { return false, None, None; }
      }
      if newAuthors.Some? {
        var filtered := FilterAuthors(newAuthors.value);
        if filtered.Length == 0 { return false, None, None; }
        authors := Some(filtered);
      }
      ok := true;
    }

    method UpdateBook(id: BookId, newTitle: Option<string>, newAuthors: Option<array?<string>>, write: Write)
      returns (reply: Reply)
      requires Valid()
      modifies repository, repository.bookOrder, cache
      ensures Valid() && (repository.bookOrder == old(repository.bookOrder) || fresh(repository.bookOrder))
      ensures (State(), Said(reply)) == CatalogSpec.UpdateBook(old(State()), id, newTitle,
        old(Named(newAuthors)), write)
      ensures fresh(repository.Repr - old(repository.Repr)) && fresh(cache.Repr - old(cache.Repr))
      ensures fresh(Handed(reply)) && Handed(reply) !! Repr()
    {
      var ok, title, parsed := ParsePatch(newTitle, newAuthors);
      if !ok { return Error(InvalidBook); }
      reply := UpdateParsed(id, title, parsed, write);
    }

    method DeleteBook(id: BookId, write: Write) returns (reply: Reply)
      requires Valid()
      modifies repository, repository.bookOrder, cache
      ensures Valid() && repository.bookOrder == old(repository.bookOrder)
      ensures (State(), Said(reply)) == CatalogSpec.DeleteBook(old(State()), id, write)
      ensures Repr() == old(Repr()) && Handed(reply) == {}
    {
      var existing := repository.FindBookById(id);
      if existing.None? { return Error(BookNotFound); }
      repository.DeleteBook(id);
      var ok := CacheEvict(existing.value.isbn, write);
      reply := if ok then Gone else Error(CacheFailed);
    }

    method ListBooks() returns (books: seq<BookDto>)
      requires Valid()
      ensures repository.Shows(books, State().order) && Unshared(books)
      ensures forall i | 0 <= i < |books| :: fresh(ArrayOf(books[i]))
    {
      books := repository.ListBooks();
    }

    /** An empty question is answered without asking the repository, as it would answer. */
    method GetBooks(ids: seq<BookId>) returns (books: seq<BookDto>)
      requires Valid()
      ensures repository.Shows(books, Wanted(State().order, ids)) && Unshared(books)
      ensures forall i | 0 <= i < |books| :: fresh(ArrayOf(books[i]))
    {
      if ids == [] {
        NothingWanted(State().order);
        return [];
      }
      books := repository.ListBooksByIds(ids);
    }
  }
}
