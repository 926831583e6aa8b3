/** The in-memory book cache. Like the repository, it keeps arrays of its own. */
module BookCache {
  import opened Domain
  import opened Books

  class Cache {
    var entries: map<Isbn, BookDto>
    ghost var Entries: map<Isbn, Book>
    ghost var Repr: set<array<string>>

    ghost predicate Valid()
      reads this, Repr
    {
      && Entries.Keys == entries.Keys
      && (forall isbn | isbn in entries :: ArrayOf(entries[isbn]) <= Repr && View(entries[isbn]) == Entries[isbn])
    }

    constructor ()
      ensures Valid() && Entries == map[] && Repr == {}
    {
      entries, Entries, Repr := map[], map[], {};
    }

    method Get(isbn: Isbn) returns (found: Option<BookDto>)
      requires Valid()
      ensures found.Some? <==> isbn in Entries
      ensures found.Some? ==> View(found.value) == Entries[isbn] && fresh(ArrayOf(found.value))
    {
      if isbn !in entries { return None; }
      var copied := Clone(entries[isbn]);
      found := Some(copied);
    }

    method Set(isbn: Isbn, book: BookDto)
      requires Valid()
      modifies this
      ensures Valid() && fresh(Repr - old(Repr)) && Entries == old(Entries)[isbn := View(book)]
    {
      var stored := Clone(book);
      entries := entries[isbn := stored];
      Entries := Entries[isbn := View(book)];
      Repr := Repr + ArrayOf(stored);
    }

    method Evict(isbn: Isbn)
      requires Valid()
      modifies this
      ensures Valid() && Repr == old(Repr) && Entries == old(Entries) - {isbn}
    {
      entries := entries - {isbn};
      Entries := Entries - {isbn};
    }
  }
}
