/** No representation exposure: a client keeps every array it ever made or was handed, passes
    them to the facade, and writes into them whenever it likes. What the facade stores and
    answers is then a function of values alone: of what the arrays passed held when they were
    passed. */
module CatalogClient {
  import opened Domain
  import opened Books
  import opened BookSchema
  import opened CatalogRepository
  import opened CatalogSpec
  import opened CatalogFacade

  // ---------------------------------------------------------------- scripts, on values

  /** What a client does next. Indices point into the arrays it holds; an index out of range
      passes a nil slice, or writes nothing. */
  datatype Step =
    | Call(op: Op, authors: nat)
    | ListAll
    | Get(ids: seq<BookId>)
    | Allocate(names: seq<string>)
    | Scribble(at: nat, place: nat, text: string)

  /** What a client reads in the reply to a step, when it gets it. */
  datatype Told = One(answer: Answer) | Many(books: seq<Book>) | Silence

  /** The shop, and what the arrays the client holds contain. */
  datatype Desk = Desk(shop: Shop, held: seq<seq<string>>)

  function Passed(held: seq<seq<string>>, i: nat): seq<string> {
    if i < |held| then held[i] else []
  }

  /** The operation a call amounts to: its authors are what the array passed contains now. */
  function Meant(held: seq<seq<string>>, op: Op, authors: nat): Op {
    match op
    case Add(id, title, _, raw, gateway) => Add(id, title, Passed(held, authors), raw, gateway)
    case Update(id, newTitle, newAuthors, write) =>
      Update(id, newTitle, if newAuthors.Some? then Some(Passed(held, authors)) else None, write)
    case _ => op
  }

  function Kept(held: seq<seq<string>>, book: Book): seq<seq<string>> {
    if book.authors.Some? then held + [book.authors.value] else held
  }

  function AllKept(held: seq<seq<string>>, books: seq<Book>): seq<seq<string>> {
    if books == [] then held else Kept(AllKept(held, books[..|books| - 1]), books[|books| - 1])
  }

  function Scribbled(held: seq<seq<string>>, at: nat, place: nat, text: string): seq<seq<string>> {
    if at < |held| && place < |held[at]| then held[at := held[at][place := text]] else held
  }

  /** The stored books with these ids. */
  function BooksOf(s: Shop, ids: seq<BookId>): seq<Book> {
    if ids == [] then []
    else
      var before, last := BooksOf(s, ids[..|ids| - 1]), ids[|ids| - 1];
      if last in s.books then before + [s.books[last]] else before
  }

  function Handling(d: Desk, books: seq<Book>): (Desk, Told) {
    (d.(held := AllKept(d.held, books)), Many(books))
  }

  function Taken(d: Desk, step: Step): (Desk, Told) {
    match step
    case Call(op, authors) =>
      var (shop, answer) := Perform(d.shop, Meant(d.held, op, authors));
      (Desk(shop, if answer.Returned? then Kept(d.held, answer.book) else d.held), One(answer))
    case ListAll => Handling(d, BooksOf(d.shop, d.shop.order))
    case Get(ids) => Handling(d, BooksOf(d.shop, Wanted(d.shop.order, ids)))
    case Allocate(names) => (d.(held := d.held + [names]), Silence)
    case Scribble(at, place, text) => (d.(held := Scribbled(d.held, at, place, text)), Silence)
  }

  function Script(d: Desk, steps: seq<Step>): (Desk, seq<Told>) {
    if steps == [] then (d, [])
    else
      var (before, told) := Script(d, steps[..|steps| - 1]);
      var (after, last) := Taken(before, steps[|steps| - 1]);
      (after, told + [last])
  }

  /** The operations a script's calls amount to. */
  function MeantBy(d: Desk, steps: seq<Step>): seq<Op> {
    if steps == [] then []
    else
      var before, last := MeantBy(d, steps[..|steps| - 1]), steps[|steps| - 1];
      if last.Call?
      then before + [Meant(Script(d, steps[..|steps| - 1]).0.held, last.op, last.authors)]
      else before
  }

  /** The shop only ever sees the calls: a script leaves it as the run of the operations they
      amount to does, so what holds of every run holds of every session. */
  lemma {:induction false} ScriptIsARun(d: Desk, steps: seq<Step>)
    ensures Script(d, steps).0.shop == After(d.shop, MeantBy(d, steps))
  {
    if steps != [] {
      var before, last := steps[..|steps| - 1], steps[|steps| - 1];
      ScriptIsARun(d, before);
      if last.Call? {
        OneMoreOp(d.shop, MeantBy(d, before), Meant(Script(d, before).0.held, last.op, last.authors));
      }
    }
  }

  // ---------------------------------------------------------------- the client

  /** What a record says now. */
  method Read(record: BookDto) returns (book: Book)
    ensures book == View(record)
  {
    var authors := if record.authors == null then None else Some(record.authors[..]);
    book := Book(record.id, record.title, authors, record.isbn);
  }

  method ReadReply(reply: Reply) returns (answer: Answer)
    ensures answer == Said(reply)
  {
    match reply
    case Got(record) =>
      var book := Read(record);
      answer := Returned(book);
    case Gone => answer := Deletion;
    case Error(error) => answer := Rejected(error);
  }

  method ReadAll(records: seq<BookDto>) returns (books: seq<Book>)
    ensures Reads(records, books)
  {
    books := [];
    for i := 0 to |records|
      invariant |books| == i && forall k | 0 <= k < i :: books[k] == View(records[k])
    {
      var book := Read(records[i]);
      books := books + [book];
    }
  }

  /** The gateway's answer as it reaches the facade, its authors in an array of their own. */
  method Listen(gateway: Gateway) returns (heard: GatewayReply)
    ensures Heard(heard) == gateway
  {
    match gateway
    case Unreachable => heard := Failed;
    case Unknown => heard := NoMetadata;
    case Known(title, names) =>
      var a := new string[|names|](i requires 0 <= i < |names| => names[i]);
      assert a[..] == names;
      heard := Metadata(title, a);
  }

  class Client {
    const facade: Facade
    var held: seq<array<string>>

    /** The arrays held are the client's own: none is kept by the facade, no two are one. */
    ghost predicate Apart()
      reads this, facade.repository, facade.cache
    {
      && (forall i | 0 <= i < |held| :: held[i] !in facade.Repr())
      && (forall i, j | 0 <= i < j < |held| :: held[i] != held[j])
    }

    ghost predicate Valid()
      reads this, facade.repository, facade.repository.bookOrder, facade.repository.Repr
      reads facade.cache, facade.cache.Repr
    {
      facade.Valid() && Apart()
    }

    ghost function Contents(): (contents: seq<seq<string>>)
      reads this, held
      ensures |contents| == |held|
    {
      seq(|held|, i requires 0 <= i < |held| reads this, held => held[i][..])
    }

    ghost function State(): Desk
      reads this, held, facade.repository, facade.cache
    {
      Desk(facade.State(), Contents())
    }

    constructor (facade: Facade)
      requires facade.Valid()
      ensures Valid() && this.facade == facade && held == []
    {
      this.facade, held := facade, [];
    }

    function Slice(i: nat): array?<string>
      reads this
    {
      if i < |held| then held[i] else null
    }

    // ------------------------------------------------------------ holding what was handed out

    /** Holding the array of one more record, if it has one. */
    method Keep(record: BookDto)
      requires Apart() && ArrayOf(record) !! facade.Repr() && forall i | 0 <= i < |held| :: held[i] !in ArrayOf(record)
      modifies `held
      ensures Apart() && Contents() == Kept(old(Contents()), View(record))
      ensures held == if record.authors == null then old(held) else old(held) + [record.authors]
    {
      if record.authors != null {
        ghost var before := Contents();
        held := held + [record.authors];
        assert Contents() == before + [record.authors[..]];
      }
    }

    method KeepAll(records: seq<BookDto>, ghost books: seq<Book>)
      requires Apart() && Unshared(records) && Reads(records, books)
      requires forall k | 0 <= k < |records| :: ArrayOf(records[k]) !! facade.Repr()
      requires forall i, k | 0 <= i < |held| && 0 <= k < |records| :: held[i] !in ArrayOf(records[k])
      modifies `held
      ensures Apart() && Contents() == AllKept(old(Contents()), books)
      ensures forall i | 0 <= i < |held| ::
        held[i] in old(held) || exists k :: 0 <= k < |records| && held[i] in ArrayOf(records[k])
    {
      for n := 0 to |records|
        invariant Apart() && Contents() == AllKept(old(Contents()), books[..n])
        invariant forall i | 0 <= i < |held| ::
          held[i] in old(held) || exists k :: 0 <= k < n && held[i] in ArrayOf(records[k])
      {
        assert books[..n + 1][..n] == books[..n];
        Keep(records[n]);
      }
      assert books[..|records|] == books;
    }

    // ------------------------------------------------------------ calls

    /** What every call leaves: the shop and the reply of the operation it amounts to, a reply
        that shares nothing with the facade, and the client's own arrays as they were. */
    twostate predicate Called(op: Op, new reply: Reply)
      reads this, held, facade.repository, facade.repository.bookOrder, facade.repository.Repr
      reads facade.cache, facade.cache.Repr, Handed(reply)
    {
      && Valid() && held == old(held) && Contents() == old(Contents())
      && (facade.repository.bookOrder == old(facade.repository.bookOrder) || fresh(facade.repository.bookOrder))
      && facade.State() == Perform(old(facade.State()), op).0 && Said(reply) == Perform(old(facade.State()), op).1
      && fresh(Handed(reply)) && Handed(reply) !! facade.Repr()
    }

    method AskAdd(id: BookId, title: string, authors: nat, raw: string, gateway: Gateway) returns (reply: Reply)
      requires Valid()
      modifies facade.repository, facade.repository.bookOrder
      ensures Called(Add(id, title, Passed(old(Contents()), authors), raw, gateway), reply)
    {
      var heard := Listen(gateway);
      reply := facade.AddBook(id, title, Slice(authors), raw, heard);
    }

    method AskFind(isbn: Isbn, getFails: bool, write: Write) returns (reply: Reply)
      requires Valid()
      modifies facade.cache
      ensures Called(Find(isbn, getFails, write), reply)
    {
      reply := facade.FindBook(isbn, getFails, write);
    }

    method AskUpdate(id: BookId, newTitle: Option<string>, named: bool, authors: nat, write: Write)
      returns (reply: Reply)
      requires Valid()
      modifies facade.repository, facade.repository.bookOrder, facade.cache
      ensures Called(Update(id, newTitle, if named then Some(Passed(old(Contents()), authors)) else None, write), reply)
    {
      reply := facade.UpdateBook(id, newTitle, if named then Some(Slice(authors)) else None, write);
    }

    method AskDelete(id: BookId, write: Write) returns (reply: Reply)
      requires Valid()
      modifies facade.repository, facade.repository.bookOrder, facade.cache
      ensures Called(Delete(id, write), reply)
    {
      reply := facade.DeleteBook(id, write);
    }

    /** An entry reaching its time-to-live is nobody's call, but it happens between calls. */
    method LetExpire(isbn: Isbn) returns (reply: Reply)
      requires Valid()
      modifies facade.cache
      ensures Called(Expire(isbn), reply)
    {
      facade.cache.Evict(isbn);
      reply := Gone;
    }

    method Ask(op: Op, authors: nat) returns (reply: Reply)
      requires Valid()
      modifies facade.repository, facade.repository.bookOrder, facade.cache
      ensures Called(Meant(old(Contents()), op, authors), reply)
    {
      match op
      case Add(id, title, _, raw, gateway) => reply := AskAdd(id, title, authors, raw, gateway);
      case Find(isbn, getFails, write) => reply := AskFind(isbn, getFails, write);
      case Update(id, newTitle, newAuthors, write) =>
        reply := AskUpdate(id, newTitle, newAuthors.Some?, authors, write);
      case Delete(id, write) => reply := AskDelete(id, write);
      case Expire(isbn) => reply := LetExpire(isbn);
    }

    // ------------------------------------------------------------ steps

    /** A reply is read at once and the array in it kept. */
    method Receive(reply: Reply) returns (answer: Answer)
      requires Valid() && Handed(reply) !! facade.Repr() && forall i | 0 <= i < |held| :: held[i] !in Handed(reply)
      modifies `held
      ensures Valid() && answer == Said(reply)
      ensures Contents() == if answer.Returned? then Kept(old(Contents()), answer.book) else old(Contents())
      ensures forall i | 0 <= i < |held| :: held[i] in old(held) || held[i] in Handed(reply)
    {
      answer := ReadReply(reply);
      if reply.Got? { Keep(reply.book); }
    }

    /** A call and its reply. */
    method TakeCall(op: Op, authors: nat) returns (told: Told)
      requires Valid()
      modifies facade.repository, facade.repository.bookOrder, facade.cache, `held
      ensures Valid() && (State(), told) == Taken(old(State()), Call(op, authors)) && OnlyNew()
      ensures facade.repository.bookOrder == old(facade.repository.bookOrder) || fresh(facade.repository.bookOrder)
    {
      var reply := Ask(op, authors);
      var answer := Receive(reply);
      told := One(answer);
    }

    /** The arrays the client did not hold before are new. */
    twostate predicate OnlyNew()
      reads this
    {
      forall i | 0 <= i < |held| :: held[i] in old(held) || fresh(held[i])
    }

    method TakeListing(records: seq<BookDto>, ghost ids: seq<BookId>) returns (told: Told)
      requires Valid() && facade.repository.Shows(records, ids) && Unshared(records)
      requires forall k | 0 <= k < |records| :: ArrayOf(records[k]) !! facade.Repr()
      requires forall i, k | 0 <= i < |held| && 0 <= k < |records| :: held[i] !in ArrayOf(records[k])
      modifies `held
      ensures Valid() && (State(), told) == Handling(old(State()), BooksOf(old(facade.State()), ids))
      ensures forall i | 0 <= i < |held| ::
        held[i] in old(held) || exists k :: 0 <= k < |records| && held[i] in ArrayOf(records[k])
    {
      var books := ReadAll(records);
      ShownBooks(facade.State(), ids, books);
      KeepAll(records, books);
      told := Many(books);
    }

    method TakeList() returns (told: Told)
      requires Valid()
      modifies `held
      ensures Valid() && (State(), told) == Taken(old(State()), ListAll) && OnlyNew()
    {
      var records := facade.ListBooks();
      told := TakeListing(records, facade.State().order);
    }

    method TakeGet(ids: seq<BookId>) returns (told: Told)
      requires Valid()
      modifies `held
      ensures Valid() && (State(), told) == Taken(old(State()), Get(ids)) && OnlyNew()
    {
      var records := facade.GetBooks(ids);
      told := TakeListing(records, Wanted(facade.State().order, ids));
    }

    method TakeAllocate(names: seq<string>)
      requires Valid()
      modifies `held
      ensures Valid() && State() == Taken(old(State()), Allocate(names)).0 && OnlyNew()
    {
      ghost var before := Contents();
      var a := new string[|names|](i requires 0 <= i < |names| => names[i]);
      held := held + [a];
      assert a[..] == names && Contents() == before + [names];
    }

    /** A write into an array the client holds: neither the repository nor the cache changes, nor
        any other array held. */
    method TakeScribble(at: nat, place: nat, text: string)
      requires Valid()
      modifies if at < |held| then {held[at]} else {}
      ensures Valid() && State() == Taken(old(State()), Scribble(at, place, text)).0
    {
      if at < |held| && place < held[at].Length {
        held[at][place] := text;
      }
      assert Contents() == Scribbled(old(Contents()), at, place, text);
    }

    method Take(step: Step) returns (told: Told)
      requires Valid()
      modifies facade.repository, facade.repository.bookOrder, facade.cache, `held, held
      ensures Valid() && (State(), told) == Taken(old(State()), step) && OnlyNew()
      ensures facade.repository.bookOrder == old(facade.repository.bookOrder) || fresh(facade.repository.bookOrder)
    {
      told := Silence;
      match step
      case Call(op, authors) => told := TakeCall(op, authors);
      case ListAll => told := TakeList();
      case Get(ids) => told := TakeGet(ids);
      case Allocate(names) => TakeAllocate(names);
      case Scribble(at, place, text) => TakeScribble(at, place, text);
    }

    /** Any script, with writes into any array the client ever held between any two calls: shop,
        contents of the arrays held, and everything the client was told are those of the
        script on values. */
    method Session(steps: seq<Step>) returns (told: seq<Told>)
      requires Valid()
      modifies facade.repository, facade.repository.bookOrder, facade.cache, `held, held
      ensures Valid() && (State(), told) == Script(old(State()), steps)
    {
      told := [];
      ghost var start := State();
      for n := 0 to |steps|
        invariant Valid() && (State(), told) == Script(start, steps[..n]) && OnlyNew()
        invariant facade.repository.bookOrder == old(facade.repository.bookOrder) || fresh(facade.repository.bookOrder)
      {
        assert steps[..n + 1][..n] == steps[..n];
        var last := Take(steps[n]);
        told := told + [last];
      }
      assert steps[..|steps|] == steps;
    }
  }

  lemma {:induction false} ShownBooks(s: Shop, ids: seq<BookId>, books: seq<Book>)
    requires |books| == |ids| && forall i | 0 <= i < |books| :: ids[i] in s.books && books[i] == s.books[ids[i]]
    ensures BooksOf(s, ids) == books
  {
    if ids != [] {
      ShownBooks(s, ids[..|ids| - 1], books[..|ids| - 1]);
    }
  }

  /** The books are what the records say. */
  ghost predicate Reads(records: seq<BookDto>, books: seq<Book>)
    reads set r | r in records :: r.authors
  {
    |books| == |records| && forall i | 0 <= i < |books| :: books[i] == View(records[i])
  }
}
