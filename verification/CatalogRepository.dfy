/** The in-memory catalog repository: a map of books and a slice of their ids in the order
    of first save, kept in step. */
module CatalogRepository {
  import opened Domain
  import opened Books

  // ---------------------------------------------------------------- the order slice

  function OrderSaved(order: seq<BookId>, id: BookId): seq<BookId> {
    if id in order then order else order + [id]
  }

  function Without(order: seq<BookId>, id: BookId): seq<BookId> {
    if order == [] then []
    else if order[0] == id then order[1..]
    else [order[0]] + Without(order[1..], id)
  }

  ghost predicate NoDuplicates(order: seq<BookId>) {
    forall i, j | 0 <= i < j < |order| :: order[i] != order[j]
  }

  /** Removing an id takes out its first occurrence and keeps the rest in order. */
  lemma {:induction false} WithoutIsRemoval(order: seq<BookId>, id: BookId) returns (k: nat)
    requires id in order
    ensures k < |order| && order[k] == id && id !in order[..k]
    ensures Without(order, id) == order[..k] + order[k + 1..]
  {
    if order[0] == id {
      k := 0;
    } else {
      k := WithoutIsRemoval(order[1..], id);
      k := k + 1;
      assert order[..k] == [order[0]] + order[1..][..k - 1];
    }
  }

  lemma WithoutFirst(order: seq<BookId>, k: nat, id: BookId)
    requires k < |order| && order[k] == id && id !in order[..k]
    ensures Without(order, id) == order[..k] + order[k + 1..]
  {
    var first := WithoutIsRemoval(order, id);
    assert first == k;
  }

  lemma {:induction false} WithoutAbsent(order: seq<BookId>, id: BookId)
    requires id !in order
    ensures Without(order, id) == order
  {
    if order != [] { WithoutAbsent(order[1..], id); }
  }

  lemma WithoutKeepsTheRest(order: seq<BookId>, id: BookId)
    requires NoDuplicates(order)
    ensures NoDuplicates(Without(order, id))
    ensures forall x :: x in Without(order, id) <==> x in order && x != id
  {
    if id in order {
      var k := WithoutIsRemoval(order, id);
      assert order == order[..k] + [id] + order[k + 1..];
      assert id !in order[k + 1..];
    } else {
      WithoutAbsent(order, id);
    }
  }

  /** removeBookId: append(order[:index], order[index+1:]...) at the first occurrence, which
      shifts the tail inside the same array. */
  method RemoveBookId(order: array<BookId>, count: nat, id: BookId) returns (left: nat)
    requires count <= order.Length
    modifies order
    ensures left <= count && order[..left] == Without(old(order[..count]), id)
  {
    ghost var was := order[..count];
    var index := 0;
    while index < count && order[index] != id
      invariant index <= count && id !in was[..index] && order[..count] == was
    {
      index := index + 1;
    }
    if index == count {
      WithoutAbsent(was, id);
      return count;
    }
    WithoutFirst(was, index, id);
    for k := index to count - 1
      invariant order[..index] == was[..index]
      invariant forall j | index <= j < k :: order[j] == was[j + 1]
      invariant forall j | k <= j < count :: order[j] == was[j]
    {
      order[k] := order[k + 1];
    }
    left := count - 1;
    assert order[..left] == was[..index] + was[index + 1..];
  }

  /** The growth step of append. */
  method Larger(order: array<BookId>) returns (larger: array<BookId>)
    ensures fresh(larger) && larger.Length == 2 * order.Length + 1 && larger[..order.Length] == order[..]
  {
    larger := new BookId[2 * order.Length + 1];
    for i := 0 to order.Length
      invariant forall j | 0 <= j < i :: larger[j] == order[j]
    {
      larger[i] := order[i];
    }
  }

  // ---------------------------------------------------------------- first save since last deletion

  datatype Change = Saved(id: BookId) | Deleted(id: BookId)

  function Changed(order: seq<BookId>, change: Change): seq<BookId> {
    match change
    case Saved(id) => OrderSaved(order, id)
    case Deleted(id) => Without(order, id)
  }

  function OrderAfter(history: seq<Change>): seq<BookId> {
    if history == [] then [] else Changed(OrderAfter(history[..|history| - 1]), history[|history| - 1])
  }

  /** When id was first saved since its last deletion, counting from 1; 0 if it is not
      stored. */
  function BornAt(history: seq<Change>, id: BookId): (at: nat)
    ensures at <= |history|
  {
    if history == [] then 0
    else
      var before, last := BornAt(history[..|history| - 1], id), history[|history| - 1];
      if last.id != id then before
      else if last.Deleted? then 0
      else if before > 0 then before
      else |history|
  }

  ghost predicate Ascending(order: seq<BookId>, history: seq<Change>) {
    forall i, j | 0 <= i < j < |order| :: BornAt(history, order[i]) < BornAt(history, order[j])
  }

  ghost predicate ByBirth(order: seq<BookId>, history: seq<Change>) {
    && (forall id :: id in order <==> BornAt(history, id) > 0)
    && Ascending(order, history)
  }

  lemma BornLater(history: seq<Change>, change: Change, x: BookId)
    ensures BornAt(history + [change], x) ==
      if x != change.id then BornAt(history, x)
      else if change.Deleted? then 0
      else if BornAt(history, x) > 0 then BornAt(history, x)
      else |history| + 1
  {
    assert (history + [change])[..|history|] == history;
  }

  lemma AscendingAppended(order: seq<BookId>, id: BookId, history: seq<Change>)
    requires Ascending(order, history) && forall x | x in order :: BornAt(history, x) < BornAt(history, id)
    ensures Ascending(order + [id], history)
  {
    assert forall i | 0 <= i < |order| :: order[i] in order;
  }

  lemma SameBirths(order: seq<BookId>, history: seq<Change>, history': seq<Change>)
    requires Ascending(order, history) && forall x | x in order :: BornAt(history', x) == BornAt(history, x)
    ensures Ascending(order, history')
  {
    assert forall i | 0 <= i < |order| :: order[i] in order;
  }

  lemma SavedByBirth(order: seq<BookId>, history: seq<Change>, id: BookId)
    requires ByBirth(order, history)
    ensures ByBirth(OrderSaved(order, id), history + [Saved(id)])
  {
    var history' := history + [Saved(id)];
    forall x ensures BornAt(history', x) == if x == id && x !in order then |history'| else BornAt(history, x) {
      BornLater(history, Saved(id), x);
    }
    SameBirths(order, history, history');
    if id !in order { AscendingAppended(order, id, history'); }
  }

  /** Taking one place out of an order by birth leaves the others in order. */
  lemma GapKeepsOrder(order: seq<BookId>, k: nat, history: seq<Change>)
    requires k < |order|
    requires Ascending(order, history)
    ensures Ascending(order[..k] + order[k + 1..], history)
  {
  }

  lemma DeletedByBirth(order: seq<BookId>, history: seq<Change>, id: BookId)
    requires ByBirth(order, history) && NoDuplicates(order)
    ensures ByBirth(Without(order, id), history + [Deleted(id)])
  {
    var history', rest := history + [Deleted(id)], Without(order, id);
    assert history'[..|history|] == history;
    assert forall x :: BornAt(history', x) == if x == id then 0 else BornAt(history, x);
    WithoutKeepsTheRest(order, id);
    if id in order {
      var k := WithoutIsRemoval(order, id);
      GapKeepsOrder(order, k, history);
    } else {
      WithoutAbsent(order, id);
    }
    forall i, j | 0 <= i < j < |rest|
      ensures BornAt(history', rest[i]) < BornAt(history', rest[j])
    {
      assert rest[i] in rest && rest[j] in rest;
    }
  }

  /** Order/map agreement: after any sequence of saves and deletions the order slice holds
      exactly the stored ids, each once, by first save since last deletion; saving again
      keeps the place. */
  lemma {:induction false} OrderIsByBirth(history: seq<Change>)
    ensures ByBirth(OrderAfter(history), history) && NoDuplicates(OrderAfter(history))
  {
    if history != [] {
      var rest, last := history[..|history| - 1], history[|history| - 1];
      OrderIsByBirth(rest);
      assert history == rest + [last];
      match last
      case Saved(id) => SavedByBirth(OrderAfter(rest), rest, id);
      case Deleted(id) => DeletedByBirth(OrderAfter(rest), rest, id);
    }
  }

  // ---------------------------------------------------------------- the repository

  /** The first book in the order with the ISBN. */
  function FirstWithIsbn(books: map<BookId, Book>, order: seq<BookId>, isbn: Isbn): Option<Book> {
    if order == [] then None
    else if order[0] in books && books[order[0]].isbn == isbn then Some(books[order[0]])
    else FirstWithIsbn(books, order[1..], isbn)
  }

  /** No book before the one found has the ISBN, and if none is found no book has it. */
  lemma {:induction false} FirstIsFirst(books: map<BookId, Book>, order: seq<BookId>, isbn: Isbn) returns (at: nat)
    ensures at <= |order| && forall i | 0 <= i < at :: order[i] in books ==> books[order[i]].isbn != isbn
    ensures if at == |order| then FirstWithIsbn(books, order, isbn) == None
            else order[at] in books && books[order[at]].isbn == isbn &&
                 FirstWithIsbn(books, order, isbn) == Some(books[order[at]])
  {
    at := 0;
    if order != [] && !(order[0] in books && books[order[0]].isbn == isbn) {
      at := FirstIsFirst(books, order[1..], isbn);
      at := at + 1;
    }
  }

  /** The order filtered by membership in ids. */
  function Wanted(order: seq<BookId>, ids: seq<BookId>): seq<BookId> {
    if order == [] then []
    else
      var rest, last := Wanted(order[..|order| - 1], ids), order[|order| - 1];
      if last in ids then rest + [last] else rest
  }

  lemma WantedOneMore(order: seq<BookId>, i: nat, ids: seq<BookId>)
    requires i < |order|
    ensures Wanted(order[..i + 1], ids) ==
      if order[i] in ids then Wanted(order[..i], ids) + [order[i]] else Wanted(order[..i], ids)
  {
    assert order[..i + 1][..i] == order[..i];
  }

  lemma {:induction false} WantedMembers(order: seq<BookId>, ids: seq<BookId>)
    ensures forall x :: x in Wanted(order, ids) <==> x in order && x in ids
  {
    if order != [] {
      var rest := order[..|order| - 1];
      WantedMembers(rest, ids);
      assert order == rest + [order[|order| - 1]];
    }
  }

  lemma {:induction false} NothingWanted(order: seq<BookId>)
    ensures Wanted(order, []) == []
  {
    if order != [] { NothingWanted(order[..|order| - 1]); }
  }

  /** ListBooksByIds shows exactly the stored ids that were asked for, each once however
      often it was asked for, in the order of ListBooks. */
  lemma {:induction false} WantedByBirth(order: seq<BookId>, ids: seq<BookId>, history: seq<Change>)
    requires Ascending(order, history)
    ensures forall x :: x in Wanted(order, ids) <==> x in order && x in ids
    ensures Ascending(Wanted(order, ids), history)
  {
    WantedMembers(order, ids);
    if order != [] {
      var rest := order[..|order| - 1];
      WantedByBirth(rest, ids, history);
      var before := Wanted(rest, ids);
      forall i | 0 <= i < |before|
        ensures BornAt(history, before[i]) < BornAt(history, order[|order| - 1])
      {
        assert before[i] in rest;
        var k :| 0 <= k < |rest| && rest[k] == before[i];
        assert order[k] == before[i];
      }
    }
  }

  class Repository {
    var booksById: map<BookId, BookDto>
    var bookOrder: array<BookId>
    var count: nat
    ghost var Books: map<BookId, Book>
    ghost var Order: seq<BookId>
    ghost var Repr: set<array<string>>

    /** Order is the used part of the order array. */
    ghost predicate ValidOrder()
      reads `bookOrder, `count, `Order, bookOrder
    {
      count <= bookOrder.Length && Order == bookOrder[..count] && NoDuplicates(Order)
    }

    /** Books is what the stored records denote; Repr holds every array they refer to. */
    ghost predicate ValidBooks()
      reads `booksById, `Books, `Repr, Repr
    {
      && Books.Keys == booksById.Keys
      && (forall id | id in booksById ::
            ArrayOf(booksById[id]) <= Repr && booksById[id].id == id && View(booksById[id]) == Books[id])
    }

    ghost predicate Valid()
      reads this, bookOrder, Repr
    {
      ValidOrder() && ValidBooks() && forall id :: id in Order <==> id in booksById
    }

    /** The records are the stored books with these ids, in this order. */
    ghost predicate Shows(books: seq<BookDto>, ids: seq<BookId>)
      reads this, set b | b in books :: b.authors
    {
      && |books| == |ids|
      && (forall i | 0 <= i < |books| :: ids[i] in Books && View(books[i]) == Books[ids[i]])
    }

    lemma ShowsOneMore(books: seq<BookDto>, longer: seq<BookDto>, ids: seq<BookId>, id: BookId)
      requires Shows(books, ids) && |longer| == |books| + 1 && longer[..|books|] == books
      requires id in Books && View(longer[|books|]) == Books[id]
      ensures Shows(longer, ids + [id])
    {
      forall i | 0 <= i < |longer|
        ensures (ids + [id])[i] in Books && View(longer[i]) == Books[(ids + [id])[i]]
      {
        if i < |books| { assert longer[i] == books[i]; }
      }
    }

    constructor ()
      ensures Valid() && Books == map[] && Order == [] && Repr == {} && fresh(bookOrder)
    {
      booksById, bookOrder, count := map[], new BookId[0], 0;
      Books, Order, Repr := map[], [], {};
    }

    /** append(r.bookOrder, id), which moves to a larger array when this one is full. */
    method AppendId(id: BookId)
      requires ValidOrder() && id !in Order
      modifies `bookOrder, `count, `Order, bookOrder
      ensures ValidOrder() && (bookOrder == old(bookOrder) || fresh(bookOrder))
      ensures Order == old(Order) + [id]
    {
      if count == bookOrder.Length {
        bookOrder := Larger(bookOrder);
      }
      bookOrder[count] := id;
      assert bookOrder[..count] == Order;
      count := count + 1;
      Order := Order + [id];
    }

    /** The map half of SaveBook. */
    method StoreClone(book: BookDto)
      requires ValidBooks()
      modifies `booksById, `Books, `Repr
      ensures ValidBooks() && fresh(Repr - old(Repr)) && old(Repr) <= Repr
      ensures Books == old(Books)[book.id := View(book)]
    {
      var stored := Clone(book);
      booksById := booksById[book.id := stored];
      Books := Books[book.id := View(book)];
      Repr := Repr + ArrayOf(stored);
    }

    method SaveBook(book: BookDto)
      requires Valid()
      modifies this, bookOrder
      ensures Valid() && fresh(Repr - old(Repr)) && (bookOrder == old(bookOrder) || fresh(bookOrder))
      ensures Books == old(Books)[book.id := View(book)] && Order == OrderSaved(old(Order), book.id)
    {
      if book.id !in booksById {
        AppendId(book.id);
      }
      StoreClone(book);
    }

    method ForgetStored(id: BookId)
      requires ValidBooks()
      modifies `booksById, `Books
      ensures ValidBooks() && Books == old(Books) - {id}
    {
      booksById := booksById - {id};
      Books := Books - {id};
    }

    method RemoveId(id: BookId)
      requires ValidOrder()
      modifies `count, `Order, bookOrder
      ensures ValidOrder() && Order == Without(old(Order), id)
      ensures forall x :: x in Order <==> x in old(Order) && x != id
    {
      WithoutKeepsTheRest(Order, id);
      count := RemoveBookId(bookOrder, count, id);
      Order := Without(Order, id);
    }

    method DeleteBook(id: BookId)
      requires Valid()
      modifies this, bookOrder
      ensures Valid() && Repr == old(Repr) && bookOrder == old(bookOrder)
      ensures Books == old(Books) - {id} && Order == Without(old(Order), id)
    {
      if id !in booksById {
        WithoutAbsent(Order, id);
        return;
      }
      RemoveId(id);
      ForgetStored(id);
    }

    method FindBookById(id: BookId) returns (found: Option<BookDto>)
      requires Valid()
      ensures found.Some? <==> id in Books
      ensures found.Some? ==> View(found.value) == Books[id] && fresh(ArrayOf(found.value))
    {
      if id !in booksById { return None; }
      var copied := Clone(booksById[id]);
      found := Some(copied);
    }

    method FindBookByIsbn(isbn: Isbn) returns (found: Option<BookDto>)
      requires Valid()
      ensures found.Some? ==> fresh(ArrayOf(found.value))
      ensures (if found.Some? then Some(View(found.value)) else None) == FirstWithIsbn(Books, Order, isbn)
    {
      for i := 0 to count
        invariant FirstWithIsbn(Books, Order, isbn) == FirstWithIsbn(Books, Order[i..], isbn)
      {
        assert Order[i] in Order && Order[i..][1..] == Order[i + 1..];
        var book := booksById[bookOrder[i]];
        assert View(book) == Books[Order[i]];
        if book.isbn == isbn {
          var copied := Clone(book);
          return Some(copied);
        }
      }
      found := None;
    }

    /** append(books, cloneBookDto(r.booksById[id])) */
    method AppendStored(books: seq<BookDto>, ghost shown: seq<BookId>, id: BookId) returns (longer: seq<BookDto>)
      requires ValidBooks() && id in booksById && Shows(books, shown) && Unshared(books)
      ensures Shows(longer, shown + [id]) && Unshared(longer)
      ensures |longer| == |books| + 1 && longer[..|books|] == books && fresh(ArrayOf(longer[|books|]))
    {
      longer := AppendClone(books, booksById[id]);
      ShowsOneMore(books, longer, shown, id);
    }

    /** The stored books in order, in arrays of their own. */
    method ListBooks() returns (books: seq<BookDto>)
      requires Valid()
      ensures Shows(books, Order) && Unshared(books) && forall i | 0 <= i < |books| :: fresh(ArrayOf(books[i]))
    {
      books := [];
      for i := 0 to count
        invariant Shows(books, Order[..i])
        invariant Unshared(books) && forall k | 0 <= k < |books| :: fresh(ArrayOf(books[k]))
      {
        assert Order[i] in Order && Order[..i + 1] == Order[..i] + [Order[i]];
        books := AppendStored(books, Order[..i], bookOrder[i]);
      }
      assert Order[..|Order|] == Order;
    }

    /** The listing restricted to the wanted ids. */
    method ListBooksByIds(ids: seq<BookId>) returns (books: seq<BookDto>)
      requires Valid()
      ensures Shows(books, Wanted(Order, ids)) && Unshared(books)
      ensures forall i | 0 <= i < |books| :: fresh(ArrayOf(books[i]))
    {
      var wanted := set id | id in ids;
      books := [];
      ghost var shown: seq<BookId> := [];
      for i := 0 to count
        invariant shown == Wanted(Order[..i], ids) && Shows(books, shown)
        invariant Unshared(books) && forall k | 0 <= k < |books| :: fresh(ArrayOf(books[k]))
      {
        assert Order[i] in Order;
        WantedOneMore(Order, i, ids);
        if bookOrder[i] in wanted {
          books := AppendStored(books, shown, bookOrder[i]);
          shown := shown + [bookOrder[i]];
        }
      }
      assert Order[..|Order|] == Order;
    }
  }
}
