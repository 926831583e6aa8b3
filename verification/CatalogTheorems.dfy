/** The cache never contradicts the repository, except for ISBNs whose last cache write
    failed. */
module CatalogTheorems {
  import opened Domain
  import opened Books
  import opened BookSchema
  import opened CatalogRepository
  import opened CatalogSpec

  // ---------------------------------------------------------------- the repository alone

  ghost predicate UniqueIsbns(books: map<BookId, Book>) {
    forall a, b | a in books && b in books && books[a].isbn == books[b].isbn :: a == b
  }

  /** Order and map agree, books are filed under their ids, and no two share an ISBN. */
  ghost predicate Sound(s: Shop) {
    && (forall id :: id in s.order <==> id in s.books)
    && (forall id | id in s.books :: s.books[id].id == id)
    && UniqueIsbns(s.books)
  }

  lemma {:induction false} FirstIsAny(books: map<BookId, Book>, order: seq<BookId>, isbn: Isbn)
    ensures var found := FirstWithIsbn(books, order, isbn);
      if found.Some?
      then exists id :: id in order && id in books && books[id] == found.value && found.value.isbn == isbn
      else forall id | id in order && id in books :: books[id].isbn != isbn
  {
    if order != [] {
      FirstIsAny(books, order[1..], isbn);
      assert order[0] in order;
      assert order == [order[0]] + order[1..];
    }
  }

  /** With unique ISBNs, looking one up finds the book that has it. */
  lemma LookupFinds(s: Shop, id: BookId)
    requires Sound(s) && id in s.books
    ensures Lookup(s, s.books[id].isbn) == Some(s.books[id])
  {
    FirstIsAny(s.books, s.order, s.books[id].isbn);
  }

  lemma OrderHolds(order: seq<BookId>, id: BookId, x: BookId)
    ensures x in OrderSaved(order, id) <==> x in order || x == id
  {
  }

  lemma SavingKeepsSound(s: Shop, book: Book)
    requires Sound(s)
    requires if book.id in s.books then s.books[book.id].isbn == book.isbn else Lookup(s, book.isbn).None?
    ensures Sound(Stored(s, book))
  {
    forall x ensures x in OrderSaved(s.order, book.id) <==> x in s.order || x == book.id {
      OrderHolds(s.order, book.id, x);
    }
    FirstIsAny(s.books, s.order, book.isbn);
  }

  lemma DeletingKeepsSound(s: Shop, id: BookId)
    requires Sound(s) && NoDuplicates(s.order)
    ensures Sound(s.(books := s.books - {id}, order := Without(s.order, id)))
  {
    WithoutKeepsTheRest(s.order, id);
  }

  /** The book an update of a stored one saves. */
  function PatchedBy(s: Shop, id: BookId, newTitle: Option<string>, newAuthors: Option<seq<string>>): Book
    requires id in s.books
  {
    Patched(s.books[id], ParsedTitle(newTitle), ParsedAuthors(newAuthors))
  }

  lemma PerformKeepsSound(s: Shop, op: Op)
    requires Sound(s) && NoDuplicates(s.order) && CanPerform(s, op)
    ensures Sound(Perform(s, op).0) && NoDuplicates(Perform(s, op).0.order)
  {
    match op
    case Add(id, title, authors, raw, gateway) =>
      if Perform(s, op).1.Returned? { SavingKeepsSound(s, Perform(s, op).1.book); }
    case Find(isbn, getFails, write) =>
    case Update(id, newTitle, newAuthors, write) =>
      if id in s.books { SavingKeepsSound(s, PatchedBy(s, id, newTitle, newAuthors)); }
    case Delete(id, write) =>
      WithoutKeepsTheRest(s.order, id);
      DeletingKeepsSound(s, id);
    case Expire(isbn) =>
  }

  // ---------------------------------------------------------------- the listing order

  /** What an operation does to the repository's order. */
  function ChangeOf(s: Shop, op: Op): seq<Change> {
    match op
    case Add(id, _, _, _, _) => if Perform(s, op).1.Returned? then [Saved(id)] else []
    case Find(_, _, _) => []
    case Update(id, newTitle, newAuthors, _) =>
      if ValidPatch(newTitle, newAuthors) && id in s.books then [Saved(id)] else []
    case Delete(id, _) => if id in s.books then [Deleted(id)] else []
    case Expire(_) => []
  }

  function Changes(s: Shop, ops: seq<Op>): seq<Change>
    decreases |ops|
  {
    if ops == [] then [] else ChangeOf(s, ops[0]) + Changes(Perform(s, ops[0]).0, ops[1..])
  }

  lemma OneMore(history: seq<Change>, change: Change)
    ensures OrderAfter(history + [change]) == Changed(OrderAfter(history), change)
  {
  }

  /** The order after one operation: no operation changes it in more than one way. */
  lemma PerformChanges(s: Shop, op: Op)
    requires Sound(s)
    ensures ChangeOf(s, op) == [] ==> Perform(s, op).0.order == s.order
    ensures ChangeOf(s, op) != [] ==>
      ChangeOf(s, op) == [ChangeOf(s, op)[0]] && Perform(s, op).0.order == Changed(s.order, ChangeOf(s, op)[0])
  {
    match op
    case Add(_, _, _, _, _) =>
    case Find(_, _, _) =>
    case Update(_, _, _, _) =>
    case Delete(_, _) =>
    case Expire(_) =>
  }

  lemma PerformOrders(s: Shop, op: Op, history: seq<Change>)
    requires Sound(s) && s.order == OrderAfter(history)
    ensures Perform(s, op).0.order == OrderAfter(history + ChangeOf(s, op))
  {
    PerformChanges(s, op);
    if ChangeOf(s, op) == [] {
      assert history + ChangeOf(s, op) == history;
    } else {
      OneMore(history, ChangeOf(s, op)[0]);
    }
  }

  lemma StepOrders(s: Shop, op: Op, history: seq<Change>) returns (next: Shop, history': seq<Change>)
    requires Sound(s) && NoDuplicates(s.order) && CanPerform(s, op) && s.order == OrderAfter(history)
    ensures next == Perform(s, op).0 && history' == history + ChangeOf(s, op)
    ensures Sound(next) && NoDuplicates(next.order) && next.order == OrderAfter(history')
  {
    PerformKeepsSound(s, op);
    PerformOrders(s, op, history);
    next, history' := Perform(s, op).0, history + ChangeOf(s, op);
  }

  lemma Append3<T>(a: seq<T>, b: seq<T>, c: seq<T>)
    ensures (a + b) + c == a + (b + c)
  {
  }

  lemma {:induction false} RunOrders(s: Shop, ops: seq<Op>, history: seq<Change>)
    requires Sound(s) && NoDuplicates(s.order) && CanRun(s, ops) && s.order == OrderAfter(history)
    ensures After(s, ops).order == OrderAfter(history + Changes(s, ops))
    decreases |ops|
  {
    if ops == [] {
      assert history + Changes(s, ops) == history;
    } else {
      var next, history' := StepOrders(s, ops[0], history);
      RunOrders(next, ops[1..], history');
      Append3(history, ChangeOf(s, ops[0]), Changes(next, ops[1..]));
    }
  }

  /** Whatever the run, books are listed by first save since last deletion: updating one keeps
      its place, deleting and adding again moves it to the end. */
  lemma ListedByBirth(ops: seq<Op>)
    requires CanRun(EMPTY_SHOP, ops)
    ensures ByBirth(After(EMPTY_SHOP, ops).order, Changes(EMPTY_SHOP, ops))
  {
    RunOrders(EMPTY_SHOP, ops, []);
    assert [] + Changes(EMPTY_SHOP, ops) == Changes(EMPTY_SHOP, ops);
    OrderIsByBirth(Changes(EMPTY_SHOP, ops));
  }

  // ---------------------------------------------------------------- coherence

  /** The ISBN whose entry an operation tries to set or evict, if it gets that far. */
  function Attempted(s: Shop, op: Op): Option<Isbn> {
    match op
    case Add(_, _, _, _, _) => None
    case Find(isbn, getFails, _) =>
      if getFails || isbn in s.entries || Lookup(s, isbn).None? then None else Some(isbn)
    case Update(id, newTitle, newAuthors, _) =>
      if ValidPatch(newTitle, newAuthors) && id in s.books then Some(s.books[id].isbn) else None
    case Delete(id, _) =>
      if id in s.books then Some(s.books[id].isbn) else None
    case Expire(_) => None
  }

  function AttemptFails(op: Op): bool {
    match op
    case Add(_, _, _, _, _) => false
    case Expire(_) => false
    case Find(_, _, write) => !write.Works?
    case Update(_, _, _, write) => !write.Works?
    case Delete(_, write) => !write.Works?
  }

  /** The ISBNs whose latest attempted cache write failed. */
  function Doubtful(s: Shop, op: Op, doubtful: set<Isbn>): set<Isbn> {
    match Attempted(s, op)
    case None => doubtful
    case Some(isbn) => if AttemptFails(op) then doubtful + {isbn} else doubtful - {isbn}
  }

  function DoubtfulAfter(s: Shop, ops: seq<Op>, doubtful: set<Isbn>): set<Isbn>
    decreases |ops|
  {
    if ops == [] then doubtful
    else DoubtfulAfter(Perform(s, ops[0]).0, ops[1..], Doubtful(s, ops[0], doubtful))
  }

  /** Every entry not in doubt is the stored book with that ISBN. */
  ghost predicate Coherent(s: Shop, doubtful: set<Isbn>) {
    forall isbn | isbn in s.entries && isbn !in doubtful ::
      && s.entries[isbn].isbn == isbn
      && s.entries[isbn].id in s.books
      && s.books[s.entries[isbn].id] == s.entries[isbn]
  }

  /** Saving a book over itself and then writing its entry. */
  lemma UpdateKeepsCoherent(s: Shop, updated: Book, write: Write, doubtful: set<Isbn>)
    requires Sound(s) && Coherent(s, doubtful)
    requires updated.id in s.books && s.books[updated.id].isbn == updated.isbn
    ensures Coherent(EntrySet(Stored(s, updated), updated.isbn, updated, write),
                     if write.Works? then doubtful - {updated.isbn} else doubtful + {updated.isbn})
  {
  }

  lemma PerformKeepsCoherent(s: Shop, op: Op, doubtful: set<Isbn>)
    requires Sound(s) && CanPerform(s, op) && Coherent(s, doubtful)
    ensures Coherent(Perform(s, op).0, Doubtful(s, op, doubtful))
  {
    match op
    case Add(id, title, authors, raw, gateway) =>
    case Find(isbn, getFails, write) => FirstIsAny(s.books, s.order, isbn);
    case Update(id, newTitle, newAuthors, write) =>
      if ValidPatch(newTitle, newAuthors) && id in s.books {
        UpdateKeepsCoherent(s, PatchedBy(s, id, newTitle, newAuthors), write, doubtful);
      }
    case Delete(id, write) =>
    case Expire(isbn) =>
  }

  lemma {:induction false} RunKeepsCoherent(s: Shop, ops: seq<Op>, doubtful: set<Isbn>)
    requires Sound(s) && NoDuplicates(s.order) && CanRun(s, ops) && Coherent(s, doubtful)
    ensures Sound(After(s, ops)) && Coherent(After(s, ops), DoubtfulAfter(s, ops, doubtful))
    decreases |ops|
  {
    if ops != [] {
      PerformKeepsSound(s, ops[0]);
      PerformKeepsCoherent(s, ops[0], doubtful);
      RunKeepsCoherent(Perform(s, ops[0]).0, ops[1..], Doubtful(s, ops[0], doubtful));
    }
  }

  /** Cache coherence: after any run from an empty catalog, with any entries expiring and any
      cache faults, ISBNs are unique in the repository and every entry whose latest
      attempted write did not fail is what the repository would find. */
  lemma CacheCoherence(ops: seq<Op>, isbn: Isbn)
    requires CanRun(EMPTY_SHOP, ops)
    ensures var s := After(EMPTY_SHOP, ops);
      && UniqueIsbns(s.books)
      && (isbn in s.entries && isbn !in DoubtfulAfter(EMPTY_SHOP, ops, {}) ==> Lookup(s, isbn) == Some(s.entries[isbn]))
  {
    RunKeepsCoherent(EMPTY_SHOP, ops, {});
    var s := After(EMPTY_SHOP, ops);
    if isbn in s.entries && isbn !in DoubtfulAfter(EMPTY_SHOP, ops, {}) {
      LookupFinds(s, s.entries[isbn].id);
    }
  }

  // ---------------------------------------------------------------- invisibility

  predicate Faultless(op: Op) {
    (op.Find? ==> !op.getFails) && !AttemptFails(op)
  }

  function Uncached(s: Shop): Shop {
    s.(entries := map[])
  }

  /** The same run with every entry thrown away before every operation. */
  function PlainAnswers(s: Shop, ops: seq<Op>): (answers: seq<Answer>)
    ensures |answers| == |ops|
    decreases |ops|
  {
    if ops == [] then []
    else
      var (next, answer) := Perform(Uncached(s), ops[0]);
      [answer] + PlainAnswers(next, ops[1..])
  }

  lemma SameAnswer(s: Shop, plain: Shop, op: Op)
    requires Sound(s) && Coherent(s, {}) && Uncached(plain) == Uncached(s) && Faultless(op)
    ensures Perform(s, op).1 == Perform(Uncached(plain), op).1
    ensures Uncached(Perform(s, op).0) == Uncached(Perform(Uncached(plain), op).0)
  {
    if op.Find? && op.isbn in s.entries {
      LookupFinds(s, s.entries[op.isbn].id);
    }
  }

  lemma {:induction false} SameAnswers(s: Shop, plain: Shop, ops: seq<Op>)
    requires Sound(s) && NoDuplicates(s.order) && CanRun(s, ops) && Coherent(s, {}) && Uncached(plain) == Uncached(s)
    requires forall op | op in ops :: Faultless(op)
    ensures Answers(s, ops) == PlainAnswers(plain, ops)
    decreases |ops|
  {
    if ops != [] {
      var op := ops[0];
      SameAnswer(s, plain, op);
      PerformKeepsSound(s, op);
      PerformKeepsCoherent(s, op, {});
      assert Doubtful(s, op, {}) == {};
      SameAnswers(Perform(s, op).0, Perform(Uncached(plain), op).0, ops[1..]);
    }
  }

  /** Without cache faults nobody can tell that there is a cache: whatever expires when, every
      operation of a run answers as it would with an empty cache, so FindBook returns exactly
      what FindBookByIsbn would. */
  lemma CacheIsInvisible(ops: seq<Op>)
    requires CanRun(EMPTY_SHOP, ops) && forall op | op in ops :: Faultless(op)
    ensures Answers(EMPTY_SHOP, ops) == PlainAnswers(EMPTY_SHOP, ops)
  {
    SameAnswers(EMPTY_SHOP, EMPTY_SHOP, ops);
  }

  // ---------------------------------------------------------------- stale entries, exactly

  /** No identifier is minted twice. */
  predicate MintsOnce(ops: seq<Op>, minted: set<BookId>)
    decreases |ops|
  {
    ops == [] ||
    ((ops[0].Add? ==> ops[0].id !in minted) &&
     MintsOnce(ops[1..], if ops[0].Add? then minted + {ops[0].id} else minted))
  }

  /** The ISBNs with a stale entry, by what happened last to the entry and the book: a refused
      write after an update that changed the book, a refused eviction of an entry that was
      there. Every write that takes effect, acknowledged or not, and every expiry ends it. */
  function Stale(s: Shop, op: Op, stale: set<Isbn>): set<Isbn> {
    match op
    case Add(_, _, _, _, _) => stale
    case Find(_, _, _) => stale
    case Update(id, newTitle, newAuthors, write) =>
      if !ValidPatch(newTitle, newAuthors) || id !in s.books then stale
      else
        var updated := PatchedBy(s, id, newTitle, newAuthors);
        if write.Refused? && updated.isbn in s.entries && s.entries[updated.isbn] != updated
        then stale + {updated.isbn}
        else stale - {updated.isbn}
    case Delete(id, write) =>
      if id !in s.books then stale
      else if write.Refused? && s.books[id].isbn in s.entries then stale + {s.books[id].isbn}
      else stale - {s.books[id].isbn}
    case Expire(isbn) => stale - {isbn}
  }

  function StaleAfter(s: Shop, ops: seq<Op>, stale: set<Isbn>): set<Isbn>
    decreases |ops|
  {
    if ops == [] then stale else StaleAfter(Perform(s, ops[0]).0, ops[1..], Stale(s, ops[0], stale))
  }

  /** Entries are filed under their ISBN, and every id in sight was minted. */
  ghost predicate Filed(s: Shop, minted: set<BookId>) {
    && s.books.Keys <= minted
    && (forall isbn | isbn in s.entries :: s.entries[isbn].isbn == isbn && s.entries[isbn].id in minted)
  }

  /** The stale ISBNs are exactly those whose entry is not what the repository finds. */
  ghost predicate Exact(s: Shop, stale: set<Isbn>) {
    forall isbn :: isbn in stale <==> isbn in s.entries && Lookup(s, isbn) != Some(s.entries[isbn])
  }

  ghost predicate Holds(s: Shop, book: Book) {
    book.id in s.books && s.books[book.id] == book
  }

  lemma LookupIs(s: Shop, isbn: Isbn)
    requires Sound(s)
    ensures Lookup(s, isbn).Some? ==> Holds(s, Lookup(s, isbn).value) && Lookup(s, isbn).value.isbn == isbn
    ensures Lookup(s, isbn).None? ==> forall id | id in s.books :: s.books[id].isbn != isbn
  {
    FirstIsAny(s.books, s.order, isbn);
  }

  lemma LookupAfterSave(s: Shop, book: Book, isbn: Isbn)
    requires Sound(s) && Sound(Stored(s, book))
    requires book.id in s.books ==> s.books[book.id].isbn == book.isbn
    ensures Lookup(Stored(s, book), isbn) == if isbn == book.isbn then Some(book) else Lookup(s, isbn)
  {
    var t := Stored(s, book);
    LookupIs(s, isbn);
    LookupIs(t, isbn);
    if isbn == book.isbn {
      LookupFinds(t, book.id);
    } else if Lookup(s, isbn).Some? {
      assert Holds(t, Lookup(s, isbn).value);
      LookupFinds(t, Lookup(s, isbn).value.id);
    }
  }

  lemma LookupAfterDelete(s: Shop, t: Shop, id: BookId, isbn: Isbn)
    requires Sound(s) && Sound(t) && id in s.books && t.books == s.books - {id}
    ensures Lookup(t, isbn) == if isbn == s.books[id].isbn then None else Lookup(s, isbn)
  {
    LookupIs(s, isbn);
    LookupIs(t, isbn);
    if isbn != s.books[id].isbn && Lookup(s, isbn).Some? {
      assert Holds(t, Lookup(s, isbn).value);
      LookupFinds(t, Lookup(s, isbn).value.id);
    }
  }

  lemma AddKeepsExact(s: Shop, book: Book, stale: set<Isbn>, minted: set<BookId>)
    requires Sound(s) && Filed(s, minted) && Exact(s, stale) && book.id !in minted && Lookup(s, book.isbn).None?
    ensures Exact(Stored(s, book), stale)
  {
    SavingKeepsSound(s, book);
    forall isbn ensures Lookup(Stored(s, book), isbn) == if isbn == book.isbn then Some(book) else Lookup(s, isbn) {
      LookupAfterSave(s, book, isbn);
    }
  }

  lemma UpdateKeepsExact(s: Shop, updated: Book, write: Write, stale: set<Isbn>)
    requires Sound(s) && Exact(s, stale) && updated.id in s.books && s.books[updated.id].isbn == updated.isbn
    ensures Exact(EntrySet(Stored(s, updated), updated.isbn, updated, write),
                  if write.Refused? && updated.isbn in s.entries && s.entries[updated.isbn] != updated
                  then stale + {updated.isbn} else stale - {updated.isbn})
  {
    SavingKeepsSound(s, updated);
    forall isbn
      ensures Lookup(Stored(s, updated), isbn) == if isbn == updated.isbn then Some(updated) else Lookup(s, isbn)
    {
      LookupAfterSave(s, updated, isbn);
    }
    var t := EntrySet(Stored(s, updated), updated.isbn, updated, write);
    assert forall isbn :: Lookup(t, isbn) == Lookup(Stored(s, updated), isbn);
  }

  lemma DeleteKeepsExact(s: Shop, id: BookId, write: Write, stale: set<Isbn>)
    requires Sound(s) && NoDuplicates(s.order) && Exact(s, stale) && id in s.books
    ensures Exact(Perform(s, Delete(id, write)).0, Stale(s, Delete(id, write), stale))
  {
    DeletingKeepsSound(s, id);
    var t := s.(books := s.books - {id}, order := Without(s.order, id));
    forall isbn ensures Lookup(t, isbn) == if isbn == s.books[id].isbn then None else Lookup(s, isbn) {
      LookupAfterDelete(s, t, id, isbn);
    }
  }

  lemma PerformKeepsExact(s: Shop, op: Op, stale: set<Isbn>, minted: set<BookId>)
    requires Sound(s) && NoDuplicates(s.order) && Filed(s, minted) && Exact(s, stale)
    requires op.Add? ==> op.id !in minted
    ensures Exact(Perform(s, op).0, Stale(s, op, stale))
  {
    match op
    case Add(id, title, authors, raw, gateway) =>
      if Perform(s, op).1.Returned? { AddKeepsExact(s, Perform(s, op).1.book, stale, minted); }
    case Find(isbn, getFails, write) =>
    case Update(id, newTitle, newAuthors, write) =>
      if ValidPatch(newTitle, newAuthors) && id in s.books {
        UpdateKeepsExact(s, PatchedBy(s, id, newTitle, newAuthors), write, stale);
      }
    case Delete(id, write) =>
      if id in s.books { DeleteKeepsExact(s, id, write, stale); }
    case Expire(isbn) =>
  }

  lemma PerformKeepsFiled(s: Shop, op: Op, minted: set<BookId>)
    requires Sound(s) && Filed(s, minted)
    ensures Filed(Perform(s, op).0, if op.Add? then minted + {op.id} else minted)
  {
    if op.Find? { FirstIsAny(s.books, s.order, op.isbn); }
  }

  lemma {:induction false} RunKeepsExact(s: Shop, ops: seq<Op>, stale: set<Isbn>, minted: set<BookId>)
    requires Sound(s) && NoDuplicates(s.order) && Filed(s, minted) && Exact(s, stale) && MintsOnce(ops, minted)
    ensures CanRun(s, ops) && Exact(After(s, ops), StaleAfter(s, ops, stale))
    decreases |ops|
  {
    if ops != [] {
      PerformKeepsSound(s, ops[0]);
      PerformKeepsExact(s, ops[0], stale, minted);
      PerformKeepsFiled(s, ops[0], minted);
      RunKeepsExact(Perform(s, ops[0]).0, ops[1..], Stale(s, ops[0], stale),
                    if ops[0].Add? then minted + {ops[0].id} else minted);
    }
  }

  /** Exactly when the cache misleads: after every run, whatever expired and whatever failed, a
      FindBook that meets no fault answers what the repository alone would answer if and only
      if the ISBN is not stale. */
  lemma FindIsExact(ops: seq<Op>, isbn: Isbn, write: Write)
    requires MintsOnce(ops, {})
    ensures var s, stale := After(EMPTY_SHOP, ops), StaleAfter(EMPTY_SHOP, ops, {});
      && (isbn in s.entries ==> (Lookup(s, isbn) == Some(s.entries[isbn]) <==> isbn !in stale))
      && (FindBook(s, isbn, false, Works).1 == FindBook(Uncached(s), isbn, false, Works).1 <==> isbn !in stale)
  {
    RunKeepsExact(EMPTY_SHOP, ops, {}, {});
  }

  /** It happens: one refused eviction is enough for a deleted book to be found. */
  lemma DeletedBookStillFound(id: BookId, title: string, author: string, raw: string, gateway: Gateway)
    requires Trim(title) != "" && Trim(author) != "" && ParseIsbn(raw).Some? && !gateway.Unreachable?
    ensures var isbn := ParseIsbn(raw).value;
      var ops := [Add(id, title, [author], raw, gateway), Find(isbn, false, Works), Delete(id, Refused)];
      var s := After(EMPTY_SHOP, ops);
      && MintsOnce(ops, {}) && isbn in StaleAfter(EMPTY_SHOP, ops, {})
      && FindBook(s, isbn, false, Works).1.Returned?
      && FindBook(Uncached(s), isbn, false, Works).1 == Rejected(BookNotFound)
  {
    var isbn := ParseIsbn(raw).value;
    var book := Book(id, Trim(title), Some([Trim(author)]), isbn);
    assert TrimmedNames([author]) == [Trim(author)] by { assert [author][..0] == []; }
    var o0, o1, o2 := Add(id, title, [author], raw, gateway), Find(isbn, false, Works), Delete(id, Refused);
    var s1 := Perform(EMPTY_SHOP, o0).0;
    assert title != "" && NewBook(id, title, [author], raw, gateway) == Valid(book);
    assert s1.order == [id] && s1.books == map[id := book];
    var s2 := Perform(s1, o1).0;
    assert s2 == s1.(entries := map[isbn := book]);
    var s3 := Perform(s2, o2).0;
    assert s3 == Shop(map[], [], map[isbn := book]);
    LastEviction(s2, s3, o2, isbn);
    assert [o0, o1, o2][1..] == [o1, o2] && [o1, o2][1..] == [o2];
    assert After(s1, [o1, o2]) == s3 && StaleAfter(s1, [o1, o2], {}) == {isbn} && MintsOnce([o1, o2], {id});
    assert {} + {id} == {id};
  }

  lemma LastEviction(s: Shop, next: Shop, op: Op, isbn: Isbn)
    requires op.Delete? && next == Perform(s, op).0 && Stale(s, op, {}) == {isbn}
    ensures After(s, [op]) == next && StaleAfter(s, [op], {}) == {isbn} && MintsOnce([op], {op.id})
  {
    assert [op][1..] == [] && StaleAfter(next, [], {isbn}) == {isbn};
  }

  // ---------------------------------------------------------------- enrichment, as documented

  /** The documented merge: the gateway fills every blank title. The code fills only an empty
      one. */
  function DocumentedTitle(title: string, gateway: Gateway): string {
    if gateway.Known? && Trim(title) == "" then gateway.title else title
  }

  /** Adding a book does what the documentation says unless the title is made of spaces only, and
      everything else is in order: then it is refused although the gateway knows a title. */
  lemma EnrichedAsDocumented(id: BookId, title: string, authors: seq<string>, raw: string, gateway: Gateway)
    ensures var code := NewBook(id, title, authors, raw, gateway);
      var documented := NewBook(id, DocumentedTitle(title, gateway), authors, raw, gateway);
      code == documented <==>
        !(&& gateway.Known? && title != "" && Trim(title) == "" && Trim(gateway.title) != ""
          && ParseIsbn(raw).Some? && TrimmedNames(MergedAuthors(authors, gateway)) != [])
  {
    assert Trim("") == "";
  }
}
