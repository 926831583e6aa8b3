/** What each catalog operation answers and leaves, field by field. */
module CatalogAnswers {
  import opened Domain
  import opened Books
  import opened BookSchema
  import opened CatalogRepository
  import opened CatalogSpec
  import opened CatalogTheorems

  /** Some stored book has the ISBN. */
  ghost predicate IsTaken(s: Shop, isbn: Isbn) {
    exists id :: id in s.books && s.books[id].isbn == isbn
  }

  lemma LookupIsTaken(s: Shop, isbn: Isbn)
    requires Sound(s)
    ensures Lookup(s, isbn).Some? <==> IsTaken(s, isbn)
    ensures forall id | id in s.books && s.books[id].isbn == isbn :: Lookup(s, isbn) == Some(s.books[id])
  {
    FirstIsAny(s.books, s.order, isbn);
  }

  /** AddBook: the ISBN first, then the gateway, then title and authors, then the duplicate. What
      is stored and answered is the trimmed title and the trimmed authors that are not blank, the
      gateway's where the client gave none, under the trimmed ISBN; it is listed last and not
      cached. */
  lemma AddAnswers(s: Shop, id: BookId, title: string, authors: seq<string>, raw: string, gateway: Gateway)
    requires Sound(s)
    ensures var (after, answer) := AddBook(s, id, title, authors, raw, gateway);
      var t := if gateway.Known? && title == "" then gateway.title else title;
      var names := TrimmedNames(if gateway.Known? && authors == [] then gateway.authors else authors);
      if ParseIsbn(raw) == None then (after, answer) == (s, Rejected(InvalidBook))
      else if gateway == Unreachable then (after, answer) == (s, Rejected(GatewayFailed))
      else if Trim(t) == "" || names == [] then (after, answer) == (s, Rejected(InvalidBook))
      else if IsTaken(s, Trim(raw)) then (after, answer) == (s, Rejected(DuplicateIsbn))
      else
        && answer == Returned(Book(id, Trim(t), Some(names), Trim(raw)))
        && after.books == s.books[id := Book(id, Trim(t), Some(names), Trim(raw))]
        && after.order == (if id in s.books then s.order else s.order + [id])
        && after.entries == s.entries
  {
    LookupIsTaken(s, Trim(raw));
  }

  /** FindBook: the entry if there is one; else the stored book with the ISBN, which is then
      cached; else nothing, which is not. */
  lemma FindAnswers(s: Shop, isbn: Isbn, getFails: bool, write: Write)
    requires Sound(s)
    ensures var (after, answer) := FindBook(s, isbn, getFails, write);
      && after.books == s.books && after.order == s.order
      && (getFails ==> (after, answer) == (s, Rejected(CacheFailed)))
      && (!getFails && isbn in s.entries ==> (after, answer) == (s, Returned(s.entries[isbn])))
      && (!getFails && isbn !in s.entries && !IsTaken(s, isbn) ==> (after, answer) == (s, Rejected(BookNotFound)))
      && (!getFails && isbn !in s.entries ==>
            forall id | id in s.books && s.books[id].isbn == isbn ::
              && answer == (if write == Works then Returned(s.books[id]) else Rejected(CacheFailed))
              && after.entries == (if write == Refused then s.entries else s.entries[isbn := s.books[id]]))
  {
    LookupIsTaken(s, isbn);
  }

  /** UpdateBook: refused for an empty patch or a blank field, then for an unknown id. Otherwise the
      stored book has the trimmed title and authors that were set and its old values where they
      were not, and its old id, ISBN and place; that book is cached under its ISBN, and answered
      unless the cache write reports an error. */
  lemma UpdateAnswers(s: Shop, id: BookId, newTitle: Option<string>, newAuthors: Option<seq<string>>, write: Write)
    requires Sound(s)
    ensures var (after, answer) := UpdateBook(s, id, newTitle, newAuthors, write);
      if (newTitle == None && newAuthors == None)
         || (newTitle.Some? && Trim(newTitle.value) == "")
         || (newAuthors.Some? && TrimmedNames(newAuthors.value) == [])
      then (after, answer) == (s, Rejected(InvalidBook))
      else if id !in s.books then (after, answer) == (s, Rejected(BookNotFound))
      else
        && id in after.books
        && var before, now := s.books[id], after.books[id];
        && now.id == id && now.isbn == before.isbn
        && now.title == (if newTitle.Some? then Trim(newTitle.value) else before.title)
        && now.authors == (if newAuthors.Some? then Some(TrimmedNames(newAuthors.value)) else before.authors)
        && answer == (if write == Works then Returned(now) else Rejected(CacheFailed))
        && after.entries == (if write == Refused then s.entries else s.entries[before.isbn := now])
        && after.order == s.order && after.books.Keys == s.books.Keys
        && (forall k | k in s.books && k != id :: after.books[k] == s.books[k])
  {
  }

  /** DeleteBook: an unknown id changes nothing. Otherwise the book is gone from map and listing,
      every other keeps its value and place, and its entry is gone unless the eviction was refused;
      an error of the eviction is reported and nothing comes back. */
  lemma DeleteAnswers(s: Shop, id: BookId, write: Write)
    requires Sound(s) && NoDuplicates(s.order)
    ensures var (after, answer) := DeleteBook(s, id, write);
      if id !in s.books then (after, answer) == (s, Rejected(BookNotFound))
      else
        && answer == (if write == Works then Deletion else Rejected(CacheFailed))
        && after.books == s.books - {id}
        && (exists k :: 0 <= k < |s.order| && s.order[k] == id && after.order == s.order[..k] + s.order[k + 1..])
        && after.entries == (if write == Refused then s.entries else s.entries - {s.books[id].isbn})
  {
    if id in s.books { var k := WithoutIsRemoval(s.order, id); }
  }
}
