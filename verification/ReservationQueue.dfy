/** The pending queue of a book, as the in-memory reservation repository lists it:
    filter a map whose iteration order is arbitrary, then sort by ReservedAt with ties
    broken by ReservationId. */
module ReservationQueue {
  import opened Domain

  type Table = map<ReservationId, Reservation>

  predicate Before(a: Reservation, b: Reservation) {
    if a.reservedAt == b.reservedAt then a.id < b.id else a.reservedAt < b.reservedAt
  }

  ghost predicate Sorted(q: seq<Reservation>) {
    forall i, j | 0 <= i < j < |q| :: Before(q[i], q[j])
  }

  ghost predicate Keyed(table: Table) {
    forall k | k in table :: table[k].id == k
  }

  predicate IsPending(table: Table, book: BookId, r: Reservation) {
    r.id in table && table[r.id] == r && r.book == book && r.fulfilledAt.None?
  }

  /** q is the FIFO arrangement of exactly the pending reservations of the book. */
  ghost predicate IsQueueOf(q: seq<Reservation>, table: Table, book: BookId) {
    Sorted(q) && forall r :: r in q <==> IsPending(table, book, r)
  }

  /** A sorted arrangement is determined by its elements. */
  lemma {:induction false} SortedUnique(p: seq<Reservation>, q: seq<Reservation>)
    requires Sorted(p) && Sorted(q)
    requires forall r :: r in p <==> r in q
    ensures p == q
  {
    assert |p| > 0 ==> p[0] in q;
    assert |q| > 0 ==> q[0] in p;
    if p != [] {
      forall r ensures r in p[1..] <==> r in q[1..] {
        assert r in p <==> r in q;
        assert r in p <==> r == p[0] || r in p[1..];
        assert r in q <==> r == q[0] || r in q[1..];
      }
      SortedUnique(p[1..], q[1..]);
    }
  }

  function Insert(r: Reservation, q: seq<Reservation>): (out: seq<Reservation>)
    ensures |out| == |q| + 1
    ensures forall x :: x in out <==> x == r || x in q
  {
    if q == [] || Before(r, q[0]) then [r] + q
    else [q[0]] + Insert(r, q[1..])
  }

  lemma {:induction false} InsertKeepsSorted(r: Reservation, q: seq<Reservation>)
    requires Sorted(q) && forall x | x in q :: x.id != r.id
    ensures Sorted(Insert(r, q))
  {
    if q == [] {
    } else if Before(r, q[0]) {
    } else {
      InsertKeepsSorted(r, q[1..]);
      var tail := Insert(r, q[1..]);
      forall j | 0 <= j < |tail| ensures Before(q[0], tail[j]) {
        assert tail[j] in tail;
        if tail[j] in q[1..] {
          var i :| 0 <= i < |q[1..]| && q[1..][i] == tail[j];
          assert Before(q[0], q[i + 1]);
        } else {
          assert q[0] in q;
        }
      }
    }
  }

  /** The queue built by visiting the given keys; the result does not depend on the order
      of the visit because a sorted arrangement is unique. */
  ghost function QueueOver(table: Table, book: BookId, keys: set<ReservationId>): (q: seq<Reservation>)
    requires Keyed(table) && keys <= table.Keys
    ensures Sorted(q)
    ensures forall r :: r in q <==> r.id in keys && IsPending(table, book, r)
    ensures |q| <= |keys|
    decreases |keys|
  {
    if keys == {} then []
    else
      var k :| k in keys;
      var rest := QueueOver(table, book, keys - {k});
      if table[k].book == book && table[k].fulfilledAt.None? then
        InsertKeepsSorted(table[k], rest);
        Insert(table[k], rest)
      else rest
  }

  ghost function PendingQueue(table: Table, book: BookId): (q: seq<Reservation>)
    requires Keyed(table)
    ensures IsQueueOf(q, table, book)
    ensures |q| <= |table|
  {
    QueueOver(table, book, table.Keys)
  }

  /** The order of a queue, in the fields: by ReservedAt, ties by ReservationId. */
  lemma QueueOrder(table: Table, book: BookId)
    requires Keyed(table)
    ensures var q := PendingQueue(table, book);
      && (forall i, j | 0 <= i < j < |q| ::
            q[i].reservedAt < q[j].reservedAt || (q[i].reservedAt == q[j].reservedAt && q[i].id < q[j].id))
      && (forall r :: r in q <==> r.id in table && table[r.id] == r && r.book == book && r.fulfilledAt == None)
  {
    var q := PendingQueue(table, book);
    assert forall i, j | 0 <= i < j < |q| :: Before(q[i], q[j]);
  }

  /** Of two pending reservations of a book the one with the earlier (ReservedAt, ReservationId)
      stands first. */
  lemma EarlierStandsFirst(table: Table, book: BookId, a: ReservationId, b: ReservationId)
    requires Keyed(table) && a in table && b in table && table[a].book == book && table[b].book == book
    requires table[a].fulfilledAt == None && table[b].fulfilledAt == None
    requires table[a].reservedAt < table[b].reservedAt || (table[a].reservedAt == table[b].reservedAt && a < b)
    ensures var q := PendingQueue(table, book);
      exists i, j :: 0 <= i < j < |q| && q[i].id == a && q[j].id == b
  {
    var q := PendingQueue(table, book);
    QueueOrder(table, book);
    assert table[a] in q && table[b] in q;
    var i :| 0 <= i < |q| && q[i] == table[a];
    var j :| 0 <= j < |q| && q[j] == table[b];
    assert q[i].id == a && q[j].id == b;
  }

  /** Any listing that is sorted and holds exactly the pending reservations is the queue. */
  lemma QueueIsUnique(q: seq<Reservation>, table: Table, book: BookId)
    requires Keyed(table) && IsQueueOf(q, table, book)
    ensures q == PendingQueue(table, book)
  {
    SortedUnique(q, PendingQueue(table, book));
  }

  /** sort.Slice with the repository's comparison. The library's own algorithm is not
      part of the service; any sort gives this result on distinct ids. */
  method SortPending(pending: seq<Reservation>) returns (sorted: seq<Reservation>)
    requires forall i, j | 0 <= i < j < |pending| :: pending[i].id != pending[j].id
    ensures Sorted(sorted)
    ensures forall r :: r in sorted <==> r in pending
  {
    sorted := [];
    for i := 0 to |pending|
      invariant Sorted(sorted)
      invariant forall r :: r in sorted <==> r in pending[..i]
    {
      InsertKeepsSorted(pending[i], sorted);
      sorted := Insert(pending[i], sorted);
      assert pending[..i + 1] == pending[..i] + [pending[i]];
    }
    assert pending[..|pending|] == pending;
  }

  /** ListPendingReservationsForBook: whatever order the map is walked in, the answer is
      the one FIFO queue. */
  method ListPendingReservationsForBook(table: Table, book: BookId) returns (queue: seq<Reservation>)
    requires Keyed(table)
    ensures queue == PendingQueue(table, book)
    ensures forall i, j | 0 <= i < j < |queue| ::
      queue[i].reservedAt < queue[j].reservedAt ||
      (queue[i].reservedAt == queue[j].reservedAt && queue[i].id < queue[j].id)
    ensures forall r ::
      r in queue <==> r.id in table && table[r.id] == r && r.book == book && r.fulfilledAt == None
  {
    var pending: seq<Reservation> := [];
    var unvisited := table.Keys;
    while unvisited != {}
      invariant unvisited <= table.Keys
      invariant forall r :: r in pending <==> r.id !in unvisited && IsPending(table, book, r)
      invariant forall i, j | 0 <= i < j < |pending| :: pending[i].id != pending[j].id
      decreases |unvisited|
    {
      var k :| k in unvisited;
      var r := table[k];
      unvisited := unvisited - {k};
      if r.book == book && r.fulfilledAt.None? {
        forall i | 0 <= i < |pending| ensures pending[i].id != r.id {
          assert pending[i] in pending;
        }
        pending := pending + [r];
      }
    }
    queue := SortPending(pending);
    QueueIsUnique(queue, table, book);
    QueueOrder(table, book);
  }

  /** PendingReservationCountForBook counts what the listing lists. */
  method PendingReservationCountForBook(table: Table, book: BookId) returns (count: nat)
    requires Keyed(table)
    ensures count == |PendingQueue(table, book)|
    ensures count == |set id | id in table && table[id].book == book && table[id].fulfilledAt == None|
  {
    count := 0;
    ghost var counted: set<ReservationId> := {};
    var unvisited := table.Keys;
    ghost var seen: seq<Reservation> := [];
    while unvisited != {}
      invariant unvisited <= table.Keys
      invariant Sorted(seen) && count == |seen| == |counted|
      invariant counted ==
        set id | id in table && id !in unvisited && table[id].book == book && table[id].fulfilledAt == None
      invariant forall r :: r in seen <==> r.id !in unvisited && IsPending(table, book, r)
      decreases |unvisited|
    {
      var k :| k in unvisited;
      unvisited := unvisited - {k};
      if table[k].book == book && table[k].fulfilledAt.None? {
        count := count + 1;
        counted := counted + {k};
        InsertKeepsSorted(table[k], seen);
        seen := Insert(table[k], seen);
      }
    }
    assert counted == set id | id in table && table[id].book == book && table[id].fulfilledAt == None;
    QueueIsUnique(seen, table, book);
  }
}
