/** Schedule independence: concurrent fault-free returns serve the queues as if they had
    run one after the other, whatever the interleaving. */
module SagaSchedule {
  import opened Domain
  import opened ReservationQueue
  import opened SagaMachine
  import opened SagaInvariant
  import opened SagaProgress

  // ---------------------------------------------------------------- the starting states

  /** The loan a thread was started to return. */
  function LoanOf(s0: State, t: Tid): Option<Loan>
    requires t < |s0.threads|
  {
    match s0.threads[t]
    case Returning(Find(id)) => if id in s0.w.loans then Some(s0.w.loans[id]) else None
    case _ => None
  }

  /** Every open loan keeps its own copy off the shelf. */
  ghost predicate LoansAgree(w: World) {
    && (forall id | id in w.loans && Open(w.loans[id]) ::
          w.loans[id].copyId in w.copies && w.copies[w.loans[id].copyId].status == Unavailable)
    && (forall i, j | i in w.loans && j in w.loans && i != j && Open(w.loans[i]) && Open(w.loans[j]) ::
          w.loans[i].copyId != w.loans[j].copyId)
  }

  /** Any reachable state in which the pending calls are returns of distinct open loans. */
  ghost predicate OnlyReturns(s0: State) {
    && Inv(s0) && s0.subscribed && LoansAgree(s0.w)
    && (forall t | 0 <= t < |s0.threads| ::
          s0.threads[t].Done? || (LoanOf(s0, t).Some? && Open(LoanOf(s0, t).value)))
    && (forall t, u | 0 <= t < u < |s0.threads| && LoanOf(s0, t).Some? && LoanOf(s0, u).Some? ::
          LoanOf(s0, t).value.id != LoanOf(s0, u).value.id)
  }

  lemma ReturnedCopiesDiffer(s0: State, t: Tid, u: Tid)
    requires OnlyReturns(s0) && t < |s0.threads| && u < |s0.threads| && t != u
    requires LoanOf(s0, t).Some? && LoanOf(s0, u).Some?
    ensures LoanOf(s0, t).value.copyId != LoanOf(s0, u).value.copyId
    ensures LoanOf(s0, t).value.id != LoanOf(s0, u).value.id
  {
  }

  // ---------------------------------------------------------------- one return on its way

  predicate MayBorrow(w: World, member: MemberId) {
    CheckEligibility(w.members, member, false).Eligible?
  }

  predicate ClosedCopy(loan: Loan, closed: Loan) {
    closed == loan.(returnedAt := closed.returnedAt) && closed.returnedAt.Some?
  }

  predicate Shelved(w: World, copyId: CopyId, status: CopyStatus) {
    copyId in w.copies && w.copies[copyId].status == status
  }

  /** The auto-loan lends the returned copy to the reserver. */
  predicate AutoLent(origin: World, w: World, loan: Loan, claim: Reservation, loanId: LoanId) {
    loanId in w.loans && loanId !in origin.loans &&
    Open(w.loans[loanId]) && w.loans[loanId].copyId == loan.copyId && w.loans[loanId].member == claim.member
  }

  predicate Ended(origin: World, w: World, loan: Loan, outcome: Outcome) {
    match outcome
    case Ended => false
    case NoAutoLoan => Shelved(w, loan.copyId, Available)
    case AutoLoan(claim, loanId) =>
      Shelved(w, loan.copyId, Unavailable) && AutoLent(origin, w, loan, claim, loanId)
  }

  predicate HandlerOnTrack(origin: World, w: World, loan: Loan, job: Job, h: HandlerStep) {
    ClosedCopy(loan, job.loan) &&
    match h
    case List => Shelved(w, loan.copyId, Available)
    case Walk(_) => Shelved(w, loan.copyId, Available)
    case Claim(next) => Shelved(w, loan.copyId, Available) && MayBorrow(w, next.member)
    case Claimed(claim) => Shelved(w, loan.copyId, Available) && MayBorrow(w, claim.member)
    case Succeeded(claim, lent) =>
      Shelved(w, loan.copyId, Unavailable) && AutoLent(origin, w, loan, claim, lent.id)
    case Unlock(outcome) => Ended(origin, w, loan, outcome)
    case _ => false
  }

  predicate BorrowOnTrack(origin: World, w: World, loan: Loan, claim: Reservation, b: BorrowStep) {
    Shelved(w, loan.copyId, Available) && MayBorrow(w, claim.member) &&
    match b
    case Authorize(role, member, copyId) => role.RoleMember? && member == claim.member && copyId == loan.copyId
    case Qualify(member, copyId) => member == claim.member && copyId == loan.copyId
    case FindCopy(member, copyId) => member == claim.member && copyId == loan.copyId
    case OpenLoan(member, copy) => member == claim.member && copy.id == loan.copyId
    case AnnounceOpened(lent) => lent.copyId == loan.copyId && AutoLent(origin, w, loan, claim, lent.id)
    case FindLent(lent) => lent.copyId == loan.copyId && AutoLent(origin, w, loan, claim, lent.id)
    case MarkUnavailable(lent, copy) => copy.id == loan.copyId && AutoLent(origin, w, loan, claim, lent.id)
  }

  predicate BeforeCommit(pc: Pc) {
    pc.Returning? && (pc.r.Find? || pc.r.CloseLoan?)
  }

  /** Where a fault-free return of loan can be, and what is then true of its own copy and
      of the loan it opens. */
  predicate OnTrack(origin: World, w: World, loan: Loan, pc: Pc) {
    (BeforeCommit(pc) || (loan.id in w.loans && !Open(w.loans[loan.id]))) &&
    match pc
    case Returning(Find(id)) =>
      id == loan.id && id in w.loans && w.loans[id] == loan && Shelved(w, loan.copyId, Unavailable)
    case Returning(CloseLoan(l)) => l == loan && Shelved(w, loan.copyId, Unavailable)
    case Returning(FindReturned(closed)) => ClosedCopy(loan, closed) && Shelved(w, loan.copyId, Unavailable)
    case Returning(MarkAvailable(closed, copy)) =>
      ClosedCopy(loan, closed) && copy.id == loan.copyId && Shelved(w, loan.copyId, Unavailable)
    case Returning(AnnounceReturned(closed)) => ClosedCopy(loan, closed) && Shelved(w, loan.copyId, Available)
    case Allocate(closed) => ClosedCopy(loan, closed) && Shelved(w, loan.copyId, Available)
    case Allocated(closed) => ClosedCopy(loan, closed) && Shelved(w, loan.copyId, Available)
    case AwaitLock(job) => ClosedCopy(loan, job.loan) && Shelved(w, loan.copyId, Available)
    case Handling(job, h) => HandlerOnTrack(origin, w, loan, job, h)
    case Borrowing(Saga(job, claim), b) => ClosedCopy(loan, job.loan) && BorrowOnTrack(origin, w, loan, claim, b)
    case Done(outcome) => Ended(origin, w, loan, outcome)
    case _ => false
  }

  /** A return touches only its own loan, its own copy, and a loan of its own. */
  predicate OwnEffect(origin: World, w: World, loan: Loan, e: Effect) {
    && (e.PutCopy? ==> e.copy.id == loan.copyId)
    && (e.PutLoan? ==> e.loan.id == loan.id || e.loan.id !in w.loans)
    && !e.PutMember? && !e.LogUnfulfilError? && !e.SetSubscribed?
  }

  lemma ReturnStaysOnTrack(origin: World, s: State, t: Tid, loan: Loan, r: ReturnStep, c: Choice)
    requires WellKeyed(s.w) && !c.fault && s.subscribed && OnTrack(origin, s.w, loan, Returning(r))
    ensures var (e, next) := ReturnMove(s.w, s.subscribed, r, c);
            OnTrack(origin, Apply(s, t, e).w, loan, next) && OwnEffect(origin, s.w, loan, e)
  {
  }

  lemma BorrowStaysOnTrack(
    origin: World, s: State, t: Tid, loan: Loan, job: Job, claim: Reservation, b: BorrowStep, c: Choice)
    requires WellKeyed(s.w) && !c.fault && Fresh(s.w, c) && origin.loans.Keys <= s.w.loans.Keys
    requires OnTrack(origin, s.w, loan, Borrowing(Saga(job, claim), b))
    ensures var (e, next) := BorrowMove(s.w, Saga(job, claim), b, c);
            OnTrack(origin, Apply(s, t, e).w, loan, next) && OwnEffect(origin, s.w, loan, e)
  {
  }

  lemma HandlerStaysOnTrack(origin: World, s: State, t: Tid, loan: Loan, job: Job, h: HandlerStep, c: Choice)
    requires WellKeyed(s.w) && !c.fault && OnTrack(origin, s.w, loan, Handling(job, h))
    ensures var (e, next) := HandlerMove(s.w, job, h, c);
            OnTrack(origin, Apply(s, t, e).w, loan, next) && OwnEffect(origin, s.w, loan, e)
  {
  }

  lemma MoveStaysOnTrack(origin: World, s: State, t: Tid, loan: Loan, c: Choice)
    requires Enabled(s, t) && WellKeyed(s.w) && !c.fault && Fresh(s.w, c) && s.subscribed
    requires origin.loans.Keys <= s.w.loans.Keys && OnTrack(origin, s.w, loan, s.threads[t])
    ensures var (e, next) := Move(s, t, c);
            OnTrack(origin, Apply(s, t, e).w, loan, next) && OwnEffect(origin, s.w, loan, e)
  {
    match s.threads[t]
    case Returning(r) => ReturnStaysOnTrack(origin, s, t, loan, r, c);
    case Handling(job, h) => HandlerStaysOnTrack(origin, s, t, loan, job, h, c);
    case Borrowing(Saga(job, claim), b) => BorrowStaysOnTrack(origin, s, t, loan, job, claim, b, c);
    case Borrowing(Client, b) => assert false;
    case _ =>
  }

  /** Returns of other loans and copies are not disturbed. */
  lemma OthersStayOnTrack(origin: World, s: State, t: Tid, mine: Loan, e: Effect, other: Loan, pc: Pc)
    requires OwnEffect(origin, s.w, mine, e) && OnTrack(origin, s.w, other, pc)
    requires mine.id in origin.loans && other.id in origin.loans && mine.id != other.id && mine.copyId != other.copyId
    requires origin.loans.Keys <= s.w.loans.Keys
    ensures OnTrack(origin, Apply(s, t, e).w, other, pc)
  {
  }

  // ---------------------------------------------------------------- the queue of eligible reservers

  predicate Waiting(w: World, r: Reservation) {
    r.fulfilledAt.None? && MayBorrow(w, r.member)
  }

  /** The reservations of a queue whose reserver may borrow, in queue order. */
  function Eligibles(w: World, q: seq<Reservation>): seq<Reservation> {
    if q == [] then []
    else if MayBorrow(w, q[0].member) then [q[0]] + Eligibles(w, q[1..])
    else Eligibles(w, q[1..])
  }

  lemma {:induction false} InEligibles(w: World, q: seq<Reservation>, r: Reservation)
    ensures r in Eligibles(w, q) <==> r in q && MayBorrow(w, r.member)
  {
    if q != [] {
      InEligibles(w, q[1..], r);
      assert r in q <==> r == q[0] || r in q[1..];
    }
  }

  lemma {:induction false} EligiblesSorted(w: World, q: seq<Reservation>)
    requires Sorted(q)
    ensures Sorted(Eligibles(w, q))
  {
    if q != [] {
      EligiblesSorted(w, q[1..]);
      var rest := Eligibles(w, q[1..]);
      forall j | 0 <= j < |rest| ensures Before(q[0], rest[j]) {
        assert rest[j] in rest;
        InEligibles(w, q[1..], rest[j]);
        var i :| 0 <= i < |q[1..]| && q[1..][i] == rest[j];
        assert Before(q[0], q[i + 1]);
      }
    }
  }

  /** Whom the returns of a book will serve, in order. */
  ghost function Line(w: World, book: BookId): seq<Reservation>
    requires WellKeyed(w)
  {
    Eligibles(w, PendingQueue(w.reservations, book))
  }

  lemma LineIsSorted(w: World, book: BookId)
    requires WellKeyed(w)
    ensures Sorted(Line(w, book))
  {
    EligiblesSorted(w, PendingQueue(w.reservations, book));
  }

  lemma InLine(w: World, book: BookId, r: Reservation)
    requires WellKeyed(w)
    ensures r in Line(w, book) <==> IsPending(w.reservations, book, r) && Waiting(w, r)
  {
    InEligibles(w, PendingQueue(w.reservations, book), r);
  }

  /** The position of r in q, or |q| when it is not there. */
  function Index(q: seq<Reservation>, r: Reservation): (i: nat)
    ensures i <= |q| && (i < |q| ==> q[i] == r)
    ensures r in q ==> i < |q|
  {
    if q == [] || q[0] == r then 0 else 1 + Index(q[1..], r)
  }

  lemma IndexIsPosition(q: seq<Reservation>, i: nat)
    requires Sorted(q) && i < |q|
    ensures Index(q, q[i]) == i
  {
  }

  function Taken(k: map<BookId, nat>, book: BookId): nat {
    if book in k then k[book] else 0
  }

  /** A waiting reservation is fulfilled exactly when the line has been served past it;
      any other reservation is as it was. */
  ghost predicate RowServed(origin: World, table: Table, k: map<BookId, nat>, id: ReservationId)
    requires WellKeyed(origin) && id in origin.reservations && id in table
  {
    var r := origin.reservations[id];
    if Waiting(origin, r) then
      && table[id] == r.(fulfilledAt := table[id].fulfilledAt)
      && (table[id].fulfilledAt.Some? <==> Index(Line(origin, r.book), r) < Taken(k, r.book))
    else table[id] == r
  }

  /** Of each line exactly the first k are fulfilled, and no other reservation changed. */
  ghost predicate Served(origin: World, table: Table, k: map<BookId, nat>)
    requires WellKeyed(origin)
  {
    table.Keys == origin.reservations.Keys &&
    forall id {:trigger RowServed(origin, table, k, id)} | id in origin.reservations :: RowServed(origin, table, k, id)
  }

  lemma StillInLine(origin: World, table: Table, k: map<BookId, nat>, book: BookId, i: nat)
    requires WellKeyed(origin) && Served(origin, table, k) && Taken(k, book) <= i < |Line(origin, book)|
    ensures IsPending(table, book, Line(origin, book)[i]) && MayBorrow(origin, Line(origin, book)[i].member)
  {
    var r := Line(origin, book)[i];
    assert r in Line(origin, book);
    InLine(origin, book, r);
    LineIsSorted(origin, book);
    IndexIsPosition(Line(origin, book), i);
    assert RowServed(origin, table, k, r.id);
  }

  lemma PendingIsInLine(origin: World, table: Table, k: map<BookId, nat>, book: BookId, r: Reservation)
    requires WellKeyed(origin) && Served(origin, table, k)
    requires IsPending(table, book, r) && MayBorrow(origin, r.member)
    ensures r in Line(origin, book) && Taken(k, book) <= Index(Line(origin, book), r)
  {
    assert RowServed(origin, table, k, r.id);
    InLine(origin, book, r);
  }

  lemma LeftIsListed(origin: World, w: World, k: map<BookId, nat>, book: BookId, i: nat)
    requires WellKeyed(origin) && WellKeyed(w) && w.members == origin.members
    requires Served(origin, w.reservations, k) && Taken(k, book) <= i < |Line(origin, book)|
    ensures Line(origin, book)[i] in Line(w, book)
  {
    StillInLine(origin, w.reservations, k, book, i);
    InLine(w, book, Line(origin, book)[i]);
  }

  lemma ListedIsLeft(origin: World, w: World, k: map<BookId, nat>, book: BookId, r: Reservation)
    requires WellKeyed(origin) && WellKeyed(w) && w.members == origin.members
    requires Served(origin, w.reservations, k) && r in Line(w, book)
    ensures r in Line(origin, book) && Taken(k, book) <= Index(Line(origin, book), r)
  {
    InLine(w, book, r);
    PendingIsInLine(origin, w.reservations, k, book, r);
  }

  lemma SuffixOf(line: seq<Reservation>, n: nat, seen: seq<Reservation>)
    requires Sorted(line) && Sorted(seen) && n <= |line|
    requires forall i | n <= i < |line| :: line[i] in seen
    requires forall r | r in seen :: r in line && n <= Index(line, r)
    ensures seen == line[n..]
  {
    var rest := line[n..];
    forall r ensures r in seen <==> r in rest {
      if r in seen { assert rest[Index(line, r) - n] == r; }
    }
    SortedUnique(seen, rest);
  }

  /** The handler that lists the queue now sees, past the ineligible, the rest of the line. */
  lemma RestOfTheLine(origin: World, w: World, k: map<BookId, nat>, book: BookId)
    requires WellKeyed(origin) && WellKeyed(w) && w.members == origin.members
    requires Served(origin, w.reservations, k) && Taken(k, book) <= |Line(origin, book)|
    ensures Line(w, book) == Line(origin, book)[Taken(k, book)..]
  {
    LineIsSorted(origin, book);
    LineIsSorted(w, book);
    forall i | Taken(k, book) <= i < |Line(origin, book)| ensures Line(origin, book)[i] in Line(w, book) {
      LeftIsListed(origin, w, k, book, i);
    }
    forall r | r in Line(w, book)
      ensures r in Line(origin, book) && Taken(k, book) <= Index(Line(origin, book), r)
    {
      ListedIsLeft(origin, w, k, book, r);
    }
    SuffixOf(Line(origin, book), Taken(k, book), Line(w, book));
  }

  /** Fulfilling the head of what is left serves one more of the line. */
  lemma ServeNext(
    origin: World, table: Table, k: map<BookId, nat>, next: Reservation, at: int, table': Table, k': map<BookId, nat>)
    requires WellKeyed(origin) && Served(origin, table, k)
    requires Taken(k, next.book) < |Line(origin, next.book)| && next == Line(origin, next.book)[Taken(k, next.book)]
    requires table' == table[next.id := next.(fulfilledAt := Some(at))] && k' == k[next.book := Taken(k, next.book) + 1]
    ensures Served(origin, table', k')
  {
    HeadIsWaiting(origin, k, next);
    forall id | id in origin.reservations ensures RowServed(origin, table', k', id) {
      assert RowServed(origin, table, k, id);
      ServeNextRow(origin, table, k, next, at, table', k', id);
    }
  }

  lemma HeadIsWaiting(origin: World, k: map<BookId, nat>, next: Reservation)
    requires WellKeyed(origin)
    requires Taken(k, next.book) < |Line(origin, next.book)| && next == Line(origin, next.book)[Taken(k, next.book)]
    ensures next.id in origin.reservations && origin.reservations[next.id] == next && Waiting(origin, next)
    ensures Index(Line(origin, next.book), next) == Taken(k, next.book)
  {
    assert next in Line(origin, next.book);
    InLine(origin, next.book, next);
    LineIsSorted(origin, next.book);
    IndexIsPosition(Line(origin, next.book), Taken(k, next.book));
  }

  lemma ServeNextRow(
    origin: World, table: Table, k: map<BookId, nat>, next: Reservation, at: int, table': Table, k': map<BookId, nat>,
    id: ReservationId)
    requires WellKeyed(origin) && id in origin.reservations && id in table && RowServed(origin, table, k, id)
    requires next.id in origin.reservations && origin.reservations[next.id] == next && Waiting(origin, next)
    requires Index(Line(origin, next.book), next) == Taken(k, next.book)
    requires table' == table[next.id := next.(fulfilledAt := Some(at))] && k' == k[next.book := Taken(k, next.book) + 1]
    ensures RowServed(origin, table', k', id)
  {
    var r := origin.reservations[id];
    if id != next.id && Waiting(origin, r) && r.book == next.book {
      OthersStandElsewhere(origin, next, r);
    }
  }

  /** Two waiting reservations have different places in their line. */
  lemma OthersStandElsewhere(origin: World, a: Reservation, b: Reservation)
    requires WellKeyed(origin) && a.book == b.book && a.id != b.id
    requires b.id in origin.reservations && origin.reservations[b.id] == b && Waiting(origin, b)
    ensures Index(Line(origin, a.book), a) != Index(Line(origin, a.book), b)
  {
    InLine(origin, b.book, b);
  }

  // ---------------------------------------------------------------- the line and the threads

  /** The reservation a return has taken from the line, as it was claimed. */
  function TakenBy(pc: Pc): Option<Reservation> {
    match pc
    case Handling(_, Unlock(AutoLoan(claim, _))) => Some(claim)
    case Done(AutoLoan(claim, _)) => Some(claim)
    case _ => ClaimOf(pc)
  }

  predicate FoundNobody(pc: Pc) {
    pc == Done(NoAutoLoan) || (pc.Handling? && pc.h == Unlock(NoAutoLoan))
  }

  /** Past the ineligible, the queue is what is left of the line. */
  ghost predicate LeftInLine(origin: World, k: map<BookId, nat>, book: BookId, queue: seq<Reservation>)
    requires WellKeyed(origin)
  {
    Taken(k, book) <= |Line(origin, book)| && Eligibles(origin, queue) == Line(origin, book)[Taken(k, book)..]
  }

  /** What a thread's place in the handler says about how far the line is served. */
  ghost predicate InStep(origin: World, k: map<BookId, nat>, book: BookId, pc: Pc)
    requires WellKeyed(origin)
  {
    var line, n := Line(origin, book), Taken(k, book);
    n <= |line| &&
    match pc
    case Handling(_, Walk(queue)) => LeftInLine(origin, k, book, queue)
    case Handling(_, Claim(next)) => n < |line| && next == line[n]
    case Handling(_, Unlock(NoAutoLoan)) => n == |line|
    case Done(NoAutoLoan) => n == |line|
    case _ => TakenBy(pc).Some? ==> Index(line, TakenBy(pc).value.(fulfilledAt := None)) < n
  }

  predicate Took(s0: State, threads: seq<Pc>, t: Tid, book: BookId)
    requires t < |s0.threads| == |threads|
  {
    LoanOf(s0, t).Some? && LoanOf(s0, t).value.book == book && TakenBy(threads[t]).Some?
  }

  /** How many of the first n threads have taken a reservation of the book. */
  function Takers(s0: State, threads: seq<Pc>, book: BookId, n: nat): nat
    requires n <= |s0.threads| == |threads|
  {
    if n == 0 then 0 else Takers(s0, threads, book, n - 1) + if Took(s0, threads, n - 1, book) then 1 else 0
  }

  lemma {:induction false} TakersAfter(s0: State, threads: seq<Pc>, t: Tid, next: Pc, book: BookId, n: nat)
    requires t < |s0.threads| == |threads| && n <= |threads|
    ensures Takers(s0, threads[t := next], book, n) + (if t < n && Took(s0, threads, t, book) then 1 else 0)
         == Takers(s0, threads, book, n) + (if t < n && Took(s0, threads[t := next], t, book) then 1 else 0)
  {
    if n != 0 { TakersAfter(s0, threads, t, next, book, n - 1); }
  }

  /** The place in the line of the reservation a thread took. */
  ghost function PlaceOf(s0: State, threads: seq<Pc>, t: Tid, book: BookId): nat
    requires WellKeyed(s0.w) && t < |s0.threads| == |threads| && Took(s0, threads, t, book)
  {
    Index(Line(s0.w, book), TakenBy(threads[t]).value.(fulfilledAt := None))
  }

  ghost predicate PlaceTaken(s0: State, threads: seq<Pc>, book: BookId, i: nat)
    requires WellKeyed(s0.w) && |s0.threads| == |threads|
  {
    exists t :: 0 <= t < |threads| && Took(s0, threads, t, book) && PlaceOf(s0, threads, t, book) == i
  }

  ghost predicate Frame(s0: State, s: State) {
    && WellKeyed(s0.w)
    && |s.threads| == |s0.threads| && s.subscribed && s.w.members == s0.w.members
    && s0.w.loans.Keys <= s.w.loans.Keys
    && (forall t | 0 <= t < |s.threads| && LoanOf(s0, t).None? :: s.threads[t].Done?)
  }

  ghost predicate AllOnTrack(s0: State, s: State)
    requires Frame(s0, s)
  {
    forall t | 0 <= t < |s.threads| && LoanOf(s0, t).Some? :: OnTrack(s0.w, s.w, LoanOf(s0, t).value, s.threads[t])
  }

  ghost predicate EachInStep(s0: State, threads: seq<Pc>, k: map<BookId, nat>)
    requires WellKeyed(s0.w) && |threads| == |s0.threads|
  {
    forall t | 0 <= t < |threads| && LoanOf(s0, t).Some? :: InStep(s0.w, k, LoanOf(s0, t).value.book, threads[t])
  }

  /** k counts the takers of each book, and they hold exactly its first places. */
  ghost predicate PlacesTaken(s0: State, threads: seq<Pc>, k: map<BookId, nat>, book: BookId)
    requires WellKeyed(s0.w) && |threads| == |s0.threads|
  {
    && Taken(k, book) <= |Line(s0.w, book)|
    && Taken(k, book) == Takers(s0, threads, book, |threads|)
    && (forall i: nat | i < Taken(k, book) :: PlaceTaken(s0, threads, book, i))
    && (forall t, u | 0 <= t < u < |threads| && Took(s0, threads, t, book) && Took(s0, threads, u, book) ::
          PlaceOf(s0, threads, t, book) != PlaceOf(s0, threads, u, book))
  }

  ghost predicate AllInStep(s0: State, threads: seq<Pc>, k: map<BookId, nat>)
    requires WellKeyed(s0.w) && |threads| == |s0.threads|
  {
    EachInStep(s0, threads, k) && forall book :: PlacesTaken(s0, threads, k, book)
  }

  ghost predicate Track(s0: State, s: State, k: map<BookId, nat>) {
    && Frame(s0, s)
    && AllOnTrack(s0, s)
    && Served(s0.w, s.w.reservations, k)
    && AllInStep(s0, s.threads, k)
  }

  // ---------------------------------------------------------------- preservation

  lemma TrackInit(s0: State)
    requires OnlyReturns(s0)
    ensures Track(s0, s0, map[])
  {
    forall book ensures PlacesTaken(s0, s0.threads, map[], book) { NobodyTook(s0, book, |s0.threads|); }
    forall id | id in s0.w.reservations ensures RowServed(s0.w, s0.w.reservations, map[], id) {}
    forall t | 0 <= t < |s0.threads| && LoanOf(s0, t).Some?
      ensures OnTrack(s0.w, s0.w, LoanOf(s0, t).value, s0.threads[t])
    {
    }
  }

  lemma {:induction false} NobodyTook(s0: State, book: BookId, n: nat)
    requires OnlyReturns(s0) && n <= |s0.threads|
    ensures Takers(s0, s0.threads, book, n) == 0
  {
    if n != 0 { NobodyTook(s0, book, n - 1); }
  }

  lemma FrameKept(s0: State, s: State, t: Tid, c: Choice)
    requires Enabled(s, t) && WellKeyed(s.w) && !c.fault && Fresh(s.w, c) && OnlyReturns(s0)
    requires Frame(s0, s) && AllOnTrack(s0, s)
    ensures LoanOf(s0, t).Some? && Frame(s0, Step(s, t, c))
  {
    MoveStaysOnTrack(s0.w, s, t, LoanOf(s0, t).value, c);
    FrameEffect(s, t, Move(s, t, c).0);
  }

  lemma FrameEffect(s: State, t: Tid, e: Effect)
    requires !e.PutMember? && !e.SetSubscribed?
    ensures var s' := Apply(s, t, e);
            s'.subscribed == s.subscribed && s'.w.members == s.w.members && s.w.loans.Keys <= s'.w.loans.Keys
  {
  }

  lemma OnTrackKept(s0: State, s: State, t: Tid, c: Choice)
    requires Enabled(s, t) && WellKeyed(s.w) && !c.fault && Fresh(s.w, c) && OnlyReturns(s0)
    requires Frame(s0, s) && AllOnTrack(s0, s) && Frame(s0, Step(s, t, c))
    ensures AllOnTrack(s0, Step(s, t, c))
  {
    var s' := Step(s, t, c);
    var e := Move(s, t, c).0;
    var mine := LoanOf(s0, t).value;
    MoveStaysOnTrack(s0.w, s, t, mine, c);
    assert s'.w == Apply(s, t, e).w;
    forall u | 0 <= u < |s'.threads| && LoanOf(s0, u).Some?
      ensures OnTrack(s0.w, s'.w, LoanOf(s0, u).value, s'.threads[u])
    {
      if u != t {
        ReturnedCopiesDiffer(s0, t, u);
        OthersStayOnTrack(s0.w, s, t, mine, e, LoanOf(s0, u).value, s.threads[u]);
      }
    }
  }

  /** The move stores no reservation, and the thread has taken what it had taken. */
  predicate Quiet(e: Effect, pc: Pc, next: Pc) {
    !e.PutReservation? && TakenBy(next) == TakenBy(pc)
  }

  lemma {:induction false} SameEligibles(origin: World, w: World, q: seq<Reservation>)
    requires w.members == origin.members
    ensures Eligibles(origin, q) == Eligibles(w, q)
  {
    if q != [] { SameEligibles(origin, w, q[1..]); }
  }

  lemma ListSeesTheLine(origin: World, w: World, k: map<BookId, nat>, book: BookId)
    requires WellKeyed(origin) && WellKeyed(w) && w.members == origin.members
    requires Served(origin, w.reservations, k) && Taken(k, book) <= |Line(origin, book)|
    ensures LeftInLine(origin, k, book, PendingQueue(w.reservations, book))
  {
    RestOfTheLine(origin, w, k, book);
    SameEligibles(origin, w, PendingQueue(w.reservations, book));
  }

  function AfterWalk(members: map<MemberId, MembershipStatus>, job: Job, queue: seq<Reservation>): Pc {
    Handling(job,
      if queue == [] then Unlock(NoAutoLoan)
      else if CheckEligibility(members, queue[0].member, false).Eligible? then Claim(queue[0])
      else Walk(queue[1..]))
  }

  lemma WalkInStep(origin: World, k: map<BookId, nat>, book: BookId, job: Job, queue: seq<Reservation>)
    requires WellKeyed(origin) && InStep(origin, k, book, Handling(job, Walk(queue)))
    ensures InStep(origin, k, book, AfterWalk(origin.members, job, queue))
  {
  }

  lemma ListMove(s: State, t: Tid, job: Job, c: Choice)
    requires Enabled(s, t) && WellKeyed(s.w) && !c.fault && s.threads[t] == Handling(job, List)
    ensures Move(s, t, c) == (Nothing, Handling(job, Walk(PendingQueue(s.w.reservations, job.loan.book))))
  {
  }

  lemma WalkMove(s: State, t: Tid, job: Job, queue: seq<Reservation>, c: Choice)
    requires Enabled(s, t) && WellKeyed(s.w) && !c.fault && s.threads[t] == Handling(job, Walk(queue))
    ensures Move(s, t, c) == (Nothing, AfterWalk(s.w.members, job, queue))
  {
  }

  lemma QueueMoveInStep(origin: World, s: State, t: Tid, k: map<BookId, nat>, job: Job, h: HandlerStep, c: Choice)
    requires Enabled(s, t) && WellKeyed(origin) && WellKeyed(s.w) && s.w.members == origin.members && !c.fault
    requires Served(origin, s.w.reservations, k) && InStep(origin, k, job.loan.book, Handling(job, h))
    requires s.threads[t] == Handling(job, h) && (h.List? || h.Walk?)
    ensures InStep(origin, k, job.loan.book, Move(s, t, c).1)
    ensures Quiet(Move(s, t, c).0, s.threads[t], Move(s, t, c).1)
  {
    if h.List? {
      ListMove(s, t, job, c);
      ListSeesTheLine(origin, s.w, k, job.loan.book);
    } else {
      WalkMove(s, t, job, h.queue, c);
      WalkInStep(origin, k, job.loan.book, job, h.queue);
    }
  }

  /** A place in the handler that says nothing about the queue. */
  predicate Plain(pc: Pc) {
    !FoundNobody(pc) && (pc.Handling? ==> !pc.h.Walk? && !pc.h.Claim?)
  }

  lemma InStepCarries(origin: World, k: map<BookId, nat>, book: BookId, pc: Pc, next: Pc)
    requires WellKeyed(origin) && InStep(origin, k, book, pc) && TakenBy(next) == TakenBy(pc)
    requires Plain(next) || (FoundNobody(pc) && FoundNobody(next))
    ensures InStep(origin, k, book, next)
  {
  }

  predicate QueueMove(pc: Pc) {
    pc.Handling? && (pc.h.List? || pc.h.Walk? || pc.h.Claim?)
  }

  predicate QuietMove(e: Effect, pc: Pc, next: Pc) {
    Quiet(e, pc, next) && (Plain(next) || (FoundNobody(pc) && FoundNobody(next)))
  }

  lemma HandlerIsQuiet(origin: World, w: World, loan: Loan, job: Job, h: HandlerStep, c: Choice)
    requires WellKeyed(w) && !c.fault && HandlerOnTrack(origin, w, loan, job, h) && !QueueMove(Handling(job, h))
    ensures var (e, next) := HandlerMove(w, job, h, c); QuietMove(e, Handling(job, h), next)
  {
  }

  lemma BorrowIsQuiet(origin: World, w: World, loan: Loan, job: Job, claim: Reservation, b: BorrowStep, c: Choice)
    requires !c.fault && BorrowOnTrack(origin, w, loan, claim, b)
    ensures var (e, next) := BorrowMove(w, Saga(job, claim), b, c); QuietMove(e, Borrowing(Saga(job, claim), b), next)
  {
  }

  lemma ReturnIsQuiet(w: World, subscribed: bool, loan: Loan, r: ReturnStep, c: Choice)
    ensures var (e, next) := ReturnMove(w, subscribed, r, c); QuietMove(e, Returning(r), next)
  {
  }

  lemma MoveIsQuiet(origin: World, s: State, t: Tid, loan: Loan, c: Choice)
    requires Enabled(s, t) && WellKeyed(s.w) && !c.fault && OnTrack(origin, s.w, loan, s.threads[t])
    requires !QueueMove(s.threads[t])
    ensures var (e, next) := Move(s, t, c); QuietMove(e, s.threads[t], next)
  {
    match s.threads[t]
    case Handling(job, h) => HandlerIsQuiet(origin, s.w, loan, job, h, c);
    case Borrowing(Saga(job, claim), b) => BorrowIsQuiet(origin, s.w, loan, job, claim, b, c);
    case Borrowing(Client, b) => assert false;
    case Returning(r) => ReturnIsQuiet(s.w, s.subscribed, loan, r, c);
    case _ =>
  }

  predicate Claiming(pc: Pc) { pc.Handling? && pc.h.Claim? }

  /** Every move but a claim leaves the line, and what the thread has taken, as it is. */
  lemma MoveInStep(origin: World, s: State, t: Tid, k: map<BookId, nat>, loan: Loan, c: Choice)
    requires Enabled(s, t) && WellKeyed(origin) && WellKeyed(s.w) && s.w.members == origin.members && !c.fault
    requires Served(origin, s.w.reservations, k) && InStep(origin, k, loan.book, s.threads[t])
    requires OnTrack(origin, s.w, loan, s.threads[t]) && !Claiming(s.threads[t])
    ensures var (e, next) := Move(s, t, c); Quiet(e, s.threads[t], next) && InStep(origin, k, loan.book, next)
  {
    if QueueMove(s.threads[t]) {
      QueueMoveInStep(origin, s, t, k, s.threads[t].job, s.threads[t].h, c);
    } else {
      MoveIsQuiet(origin, s, t, loan, c);
      InStepCarries(origin, k, loan.book, s.threads[t], Move(s, t, c).1);
    }
  }

  lemma PlacesUntouched(
    s0: State, threads: seq<Pc>, k: map<BookId, nat>, t: Tid, next: Pc, k': map<BookId, nat>, book: BookId)
    requires WellKeyed(s0.w) && t < |threads| == |s0.threads| && PlacesTaken(s0, threads, k, book)
    requires Taken(k', book) == Taken(k, book)
    requires TakenBy(next) == TakenBy(threads[t]) || (LoanOf(s0, t).Some? && LoanOf(s0, t).value.book != book)
    ensures PlacesTaken(s0, threads[t := next], k', book)
  {
    var threads' := threads[t := next];
    TakersAfter(s0, threads, t, next, book, |threads|);
    forall u | 0 <= u < |threads|
      ensures Took(s0, threads', u, book) == Took(s0, threads, u, book)
      ensures Took(s0, threads, u, book) ==> PlaceOf(s0, threads', u, book) == PlaceOf(s0, threads, u, book)
    {
    }
    forall i: nat | i < Taken(k', book) ensures PlaceTaken(s0, threads', book, i) {
      assert PlaceTaken(s0, threads, book, i);
      var u :| 0 <= u < |threads| && Took(s0, threads, u, book) && PlaceOf(s0, threads, u, book) == i;
      assert Took(s0, threads', u, book) && PlaceOf(s0, threads', u, book) == i;
    }
  }

  /** A claim takes the next place. */
  lemma NextPlaceTaken(s0: State, threads: seq<Pc>, k: map<BookId, nat>, t: Tid, next: Pc, book: BookId)
    requires WellKeyed(s0.w) && t < |threads| == |s0.threads| && PlacesTaken(s0, threads, k, book)
    requires EachInStep(s0, threads, k)
    requires LoanOf(s0, t).Some? && LoanOf(s0, t).value.book == book && TakenBy(threads[t]).None? && TakenBy(next).Some?
    requires Taken(k, book) < |Line(s0.w, book)|
    requires TakenBy(next).value.(fulfilledAt := None) == Line(s0.w, book)[Taken(k, book)]
    ensures PlacesTaken(s0, threads[t := next], k[book := Taken(k, book) + 1], book)
  {
    var threads' := threads[t := next];
    TakersAfter(s0, threads, t, next, book, |threads|);
    LineIsSorted(s0.w, book);
    IndexIsPosition(Line(s0.w, book), Taken(k, book));
    assert Took(s0, threads', t, book) && PlaceOf(s0, threads', t, book) == Taken(k, book);
    forall u | 0 <= u < |threads| && u != t
      ensures Took(s0, threads', u, book) == Took(s0, threads, u, book)
      ensures Took(s0, threads, u, book) ==>
        PlaceOf(s0, threads', u, book) == PlaceOf(s0, threads, u, book) < Taken(k, book)
    {
      if Took(s0, threads, u, book) { TakersAreInStep(s0, threads, k, u, book); }
    }
    forall i: nat | i < Taken(k, book) + 1 ensures PlaceTaken(s0, threads', book, i) {
      if i < Taken(k, book) {
        assert PlaceTaken(s0, threads, book, i);
        var u :| 0 <= u < |threads| && Took(s0, threads, u, book) && PlaceOf(s0, threads, u, book) == i;
        assert Took(s0, threads', u, book) && PlaceOf(s0, threads', u, book) == i;
      }
    }
  }

  lemma TakersAreInStep(s0: State, threads: seq<Pc>, k: map<BookId, nat>, u: Tid, book: BookId)
    requires WellKeyed(s0.w) && u < |threads| == |s0.threads| && EachInStep(s0, threads, k)
    requires Took(s0, threads, u, book)
    ensures PlaceOf(s0, threads, u, book) < Taken(k, book)
  {
  }

  /** While one handler of a book claims, no other return of the book looks at the line. */
  lemma OthersInStep(s0: State, threads: seq<Pc>, k: map<BookId, nat>, t: Tid, book: BookId, u: Tid)
    requires WellKeyed(s0.w) && t < |threads| == |s0.threads| && u < |threads| && EachInStep(s0, threads, k) && t != u
    requires LoanOf(s0, u).Some? && Taken(k, book) < |Line(s0.w, book)|
    requires LoanOf(s0, u).value.book == book ==> JobOf(threads[u]).None?
    ensures InStep(s0.w, k[book := Taken(k, book) + 1], LoanOf(s0, u).value.book, threads[u])
  {
  }

  lemma ClaimMove(s: State, t: Tid, job: Job, next: Reservation, c: Choice)
    requires Enabled(s, t) && WellKeyed(s.w) && !c.fault && s.threads[t] == Handling(job, Claim(next))
    ensures var claim := next.(fulfilledAt := Some(c.now));
            Move(s, t, c) == (PutReservation(claim), Handling(job, Claimed(claim)))
  {
  }

  ghost predicate NextInLine(origin: World, k: map<BookId, nat>, book: BookId, next: Reservation)
    requires WellKeyed(origin)
  {
    Taken(k, book) < |Line(origin, book)| && next == Line(origin, book)[Taken(k, book)] &&
    next.book == book && next.fulfilledAt.None?
  }

  lemma ClaimTable(s: State, t: Tid, job: Job, next: Reservation, c: Choice)
    requires Enabled(s, t) && WellKeyed(s.w) && !c.fault && s.threads[t] == Handling(job, Claim(next))
    ensures Step(s, t, c).w.reservations == s.w.reservations[next.id := next.(fulfilledAt := Some(c.now))]
  {
    ClaimMove(s, t, job, next, c);
  }

  lemma ServedByClaim(
    origin: World, table: Table, k: map<BookId, nat>, next: Reservation, book: BookId, at: int, table': Table,
    k': map<BookId, nat>)
    requires WellKeyed(origin) && NextInLine(origin, k, book, next) && Served(origin, table, k)
    requires table' == table[next.id := next.(fulfilledAt := Some(at))] && k' == k[book := Taken(k, book) + 1]
    ensures Served(origin, table', k')
  {
    ServeNext(origin, table, k, next, at, table', k');
  }

  /** No other return of the book is inside its handler. */
  predicate Alone(s0: State, threads: seq<Pc>, t: Tid, book: BookId)
    requires |threads| == |s0.threads|
  {
    forall u | 0 <= u < |threads| && u != t && LoanOf(s0, u).Some? && LoanOf(s0, u).value.book == book ::
      JobOf(threads[u]).None?
  }

  lemma AloneInHandler(s0: State, s: State, t: Tid)
    requires Locks(s) && Frame(s0, s) && AllOnTrack(s0, s)
    requires t < |s.threads| && LoanOf(s0, t).Some? && JobOf(s.threads[t]).Some?
    ensures Alone(s0, s.threads, t, LoanOf(s0, t).value.book)
  {
  }

  lemma ClaimKeepsEach(
    s0: State, threads: seq<Pc>, k: map<BookId, nat>, t: Tid, job: Job, claim: Reservation, book: BookId)
    requires WellKeyed(s0.w) && t < |threads| == |s0.threads| && EachInStep(s0, threads, k)
    requires Alone(s0, threads, t, book)
    requires LoanOf(s0, t).Some? && LoanOf(s0, t).value.book == book
    requires NextInLine(s0.w, k, book, claim.(fulfilledAt := None))
    ensures EachInStep(s0, threads[t := Handling(job, Claimed(claim))], k[book := Taken(k, book) + 1])
  {
    ClaimerInStep(s0.w, k, book, job, claim);
    forall u | 0 <= u < |threads| && LoanOf(s0, u).Some? && u != t
      ensures InStep(s0.w, k[book := Taken(k, book) + 1], LoanOf(s0, u).value.book, threads[u])
    {
      OthersInStep(s0, threads, k, t, book, u);
    }
  }

  /** A claim moves the line on by one and keeps everyone in step. */
  lemma ClaimKeepsStep(
    s0: State, threads: seq<Pc>, k: map<BookId, nat>, t: Tid, job: Job, claim: Reservation, book: BookId)
    requires WellKeyed(s0.w) && t < |threads| == |s0.threads| && AllInStep(s0, threads, k)
    requires Alone(s0, threads, t, book)
    requires LoanOf(s0, t).Some? && LoanOf(s0, t).value.book == book && TakenBy(threads[t]).None?
    requires NextInLine(s0.w, k, book, claim.(fulfilledAt := None))
    ensures AllInStep(s0, threads[t := Handling(job, Claimed(claim))], k[book := Taken(k, book) + 1])
  {
    var pc' := Handling(job, Claimed(claim));
    var k', threads' := k[book := Taken(k, book) + 1], threads[t := pc'];
    ClaimKeepsEach(s0, threads, k, t, job, claim, book);
    NextPlaceTaken(s0, threads, k, t, pc', book);
    forall b ensures PlacesTaken(s0, threads', k', b) {
      if b != book { PlacesUntouched(s0, threads, k, t, pc', k', b); }
    }
  }

  lemma ClaimIsNext(s0: State, s: State, t: Tid, k: map<BookId, nat>)
    requires t < |s.threads| && Track(s0, s, k) && LoanOf(s0, t).Some? && Claiming(s.threads[t])
    ensures NextInLine(s0.w, k, LoanOf(s0, t).value.book, s.threads[t].h.next)
  {
    var book := LoanOf(s0, t).value.book;
    assert InStep(s0.w, k, book, s.threads[t]);
    assert s.threads[t].h.next in Line(s0.w, book);
    InLine(s0.w, book, s.threads[t].h.next);
  }

  lemma ClaimerInStep(origin: World, k: map<BookId, nat>, book: BookId, job: Job, claim: Reservation)
    requires WellKeyed(origin) && Taken(k, book) < |Line(origin, book)|
    requires claim.(fulfilledAt := None) == Line(origin, book)[Taken(k, book)]
    ensures InStep(origin, k[book := Taken(k, book) + 1], book, Handling(job, Claimed(claim)))
  {
    LineIsSorted(origin, book);
    IndexIsPosition(Line(origin, book), Taken(k, book));
  }

  lemma QuietKeepsPlaces(s0: State, threads: seq<Pc>, k: map<BookId, nat>, t: Tid, next: Pc)
    requires WellKeyed(s0.w) && t < |threads| == |s0.threads| && AllInStep(s0, threads, k)
    requires LoanOf(s0, t).Some? && InStep(s0.w, k, LoanOf(s0, t).value.book, next)
    requires TakenBy(next) == TakenBy(threads[t])
    ensures AllInStep(s0, threads[t := next], k)
  {
    var threads' := threads[t := next];
    forall b ensures PlacesTaken(s0, threads', k, b) {
      PlacesUntouched(s0, threads, k, t, next, k, b);
    }
  }

  lemma QuietKeepsStep(s0: State, s: State, t: Tid, k: map<BookId, nat>, c: Choice)
    requires Enabled(s, t) && !c.fault && Inv(s) && Track(s0, s, k) && LoanOf(s0, t).Some? && !Claiming(s.threads[t])
    ensures var s' := Step(s, t, c); Served(s0.w, s'.w.reservations, k) && AllInStep(s0, s'.threads, k)
  {
    var (e, next) := Move(s, t, c);
    assert OnTrack(s0.w, s.w, LoanOf(s0, t).value, s.threads[t]);
    MoveInStep(s0.w, s, t, k, LoanOf(s0, t).value, c);
    ApplyTable(s, t, e);
    QuietKeepsPlaces(s0, s.threads, k, t, next);
  }

  lemma ClaimStep(s: State, t: Tid, job: Job, next: Reservation, c: Choice)
    requires Enabled(s, t) && WellKeyed(s.w) && !c.fault && s.threads[t] == Handling(job, Claim(next))
    ensures Step(s, t, c).threads == s.threads[t := Handling(job, Claimed(next.(fulfilledAt := Some(c.now))))]
  {
  }

  lemma ClaimKeepsTrack(
    s0: State, s: State, t: Tid, k: map<BookId, nat>, job: Job, next: Reservation, book: BookId, c: Choice)
    requires Enabled(s, t) && !c.fault && WellKeyed(s.w) && Frame(s0, s) && AllInStep(s0, s.threads, k)
    requires s.threads[t] == Handling(job, Claim(next)) && Alone(s0, s.threads, t, book)
    requires LoanOf(s0, t).Some? && LoanOf(s0, t).value.book == book && NextInLine(s0.w, k, book, next)
    ensures AllInStep(s0, Step(s, t, c).threads, k[book := Taken(k, book) + 1])
  {
    ClaimStep(s, t, job, next, c);
    ClaimKeepsStep(s0, s.threads, k, t, job, next.(fulfilledAt := Some(c.now)), book);
  }

  lemma InStepByClaim(s0: State, s: State, t: Tid, k: map<BookId, nat>, book: BookId, c: Choice)
    requires Enabled(s, t) && !c.fault && Inv(s) && Track(s0, s, k) && LoanOf(s0, t).Some? && Claiming(s.threads[t])
    requires book == LoanOf(s0, t).value.book
    ensures AllInStep(s0, Step(s, t, c).threads, k[book := Taken(k, book) + 1])
  {
    ClaimIsNext(s0, s, t, k);
    AloneInHandler(s0, s, t);
    ClaimKeepsTrack(s0, s, t, k, s.threads[t].job, s.threads[t].h.next, book, c);
  }

  lemma ClaimKeepsServed(
    origin: World, s: State, t: Tid, k: map<BookId, nat>, job: Job, next: Reservation, book: BookId, c: Choice)
    requires Enabled(s, t) && WellKeyed(s.w) && !c.fault && s.threads[t] == Handling(job, Claim(next))
    requires WellKeyed(origin) && NextInLine(origin, k, book, next) && Served(origin, s.w.reservations, k)
    ensures Served(origin, Step(s, t, c).w.reservations, k[book := Taken(k, book) + 1])
  {
    ClaimTable(s, t, job, next, c);
    var table' := Step(s, t, c).w.reservations;
    ServedByClaim(origin, s.w.reservations, k, next, book, c.now, table', k[book := Taken(k, book) + 1]);
  }

  lemma QueueKept(s0: State, s: State, t: Tid, k: map<BookId, nat>, c: Choice) returns (k': map<BookId, nat>)
    requires Enabled(s, t) && !c.fault && Inv(s) && Track(s0, s, k) && LoanOf(s0, t).Some?
    ensures Served(s0.w, Step(s, t, c).w.reservations, k')
    ensures |Step(s, t, c).threads| == |s0.threads| && AllInStep(s0, Step(s, t, c).threads, k')
  {
    if Claiming(s.threads[t]) {
      var book := LoanOf(s0, t).value.book;
      k' := k[book := Taken(k, book) + 1];
      ClaimIsNext(s0, s, t, k);
      ClaimKeepsServed(s0.w, s, t, k, s.threads[t].job, s.threads[t].h.next, book, c);
      InStepByClaim(s0, s, t, k, book, c);
    } else {
      k' := k;
      QuietKeepsStep(s0, s, t, k, c);
    }
  }

  /** Every fault-free step keeps every return on track and every line served in order. */
  lemma TrackKept(s0: State, s: State, t: Tid, k: map<BookId, nat>, c: Choice) returns (k': map<BookId, nat>)
    requires Enabled(s, t) && !c.fault && Fresh(s.w, c) && Inv(s) && OnlyReturns(s0) && Track(s0, s, k)
    ensures Track(s0, Step(s, t, c), k')
  {
    FrameKept(s0, s, t, c);
    OnTrackKept(s0, s, t, c);
    k' := QueueKept(s0, s, t, k, c);
  }

  // ---------------------------------------------------------------- the theorem

  predicate FaultFree(run: Schedule) {
    forall i | 0 <= i < |run| :: !run[i].1.fault
  }

  lemma {:induction false} RunOnTrack(s0: State, s: State, run: Schedule, k: map<BookId, nat>)
    returns (k': map<BookId, nat>)
    requires OnlyReturns(s0) && Inv(s) && Track(s0, s, k) && CanRun(s, run) && FaultFree(run)
    ensures Track(s0, Run(s, run), k')
    decreases |run|
  {
    k' := k;
    if run != [] {
      var (t, c) := run[0];
      assert !run[0].1.fault && FaultFree(run[1..]);
      InvKept(s, t, c);
      k' := TrackKept(s0, s, t, k, c);
      k' := RunOnTrack(s0, Step(s, t, c), run[1..], k');
    }
  }

  /** How many of the first n threads return a copy of the book. */
  function Returns(s0: State, book: BookId, n: nat): nat
    requires n <= |s0.threads|
  {
    if n == 0 then 0
    else Returns(s0, book, n - 1) + if LoanOf(s0, n - 1).Some? && LoanOf(s0, n - 1).value.book == book then 1 else 0
  }

  /** How many of the line the returns reach: one each, as far as it goes. */
  ghost function Reach(s0: State, book: BookId): nat
    requires WellKeyed(s0.w)
  {
    var n, m := Returns(s0, book, |s0.threads|), |Line(s0.w, book)|;
    if n <= m then n else m
  }

  lemma {:induction false} TakersAreReturns(s0: State, threads: seq<Pc>, book: BookId, n: nat)
    requires n <= |s0.threads| == |threads|
    ensures Takers(s0, threads, book, n) <= Returns(s0, book, n)
    ensures (forall t | 0 <= t < n && LoanOf(s0, t).Some? && LoanOf(s0, t).value.book == book ::
               TakenBy(threads[t]).Some?)
            ==> Takers(s0, threads, book, n) == Returns(s0, book, n)
  {
    if n != 0 { TakersAreReturns(s0, threads, book, n - 1); }
  }

  lemma FinishedReturns(s0: State, s: State, k: map<BookId, nat>, t: Tid)
    requires Track(s0, s, k) && t < |s.threads| && LoanOf(s0, t).Some? && s.threads[t].Done?
    ensures var loan := LoanOf(s0, t).value; var outcome := s.threads[t].outcome;
            && loan.id in s.w.loans && !Open(s.w.loans[loan.id])
            && Ended(s0.w, s.w, loan, outcome)
            && (outcome.NoAutoLoan? ==> Taken(k, loan.book) == |Line(s0.w, loan.book)|)
            && (!outcome.NoAutoLoan? ==> outcome.AutoLoan? && TakenBy(s.threads[t]) == Some(outcome.claim))
  {
  }

  lemma AllReached(s0: State, s: State, k: map<BookId, nat>, book: BookId)
    requires Track(s0, s, k) && AllDone(s)
    ensures Taken(k, book) == Reach(s0, book)
  {
    assert PlacesTaken(s0, s.threads, k, book);
    TakersAreReturns(s0, s.threads, book, |s.threads|);
    if t :| 0 <= t < |s.threads| && LoanOf(s0, t).Some? && LoanOf(s0, t).value.book == book
            && TakenBy(s.threads[t]).None? {
      FinishedReturns(s0, s, k, t);
    }
  }

  /** Thread t returned a copy of the book and lent it to the reservation at place i. */
  ghost predicate LentTo(s0: State, s: State, book: BookId, i: nat, t: Tid)
    requires WellKeyed(s0.w)
  {
    && t < |s.threads| == |s0.threads| && LoanOf(s0, t).Some? && LoanOf(s0, t).value.book == book
    && s.threads[t].Done? && s.threads[t].outcome.AutoLoan?
    && var claim := s.threads[t].outcome.claim;
       Index(Line(s0.w, book), claim.(fulfilledAt := None)) == i &&
       Ended(s0.w, s.w, LoanOf(s0, t).value, s.threads[t].outcome)
  }

  lemma LenderIsUnique(s0: State, s: State, k: map<BookId, nat>, book: BookId, i: nat, t: Tid, u: Tid)
    requires Track(s0, s, k) && LentTo(s0, s, book, i, t) && LentTo(s0, s, book, i, u)
    ensures t == u
  {
    assert PlacesTaken(s0, s.threads, k, book);
    assert Took(s0, s.threads, u, book) && PlaceOf(s0, s.threads, u, book) == i;
    assert Took(s0, s.threads, t, book) && PlaceOf(s0, s.threads, t, book) == i;
  }

  lemma PlaceIsLent(s0: State, s: State, k: map<BookId, nat>, book: BookId, i: nat)
    requires Track(s0, s, k) && AllDone(s) && i < Taken(k, book)
    ensures LentOnce(s0, s, book, i)
  {
    assert PlacesTaken(s0, s.threads, k, book) && PlaceTaken(s0, s.threads, book, i);
    var t :| 0 <= t < |s.threads| && Took(s0, s.threads, t, book) && PlaceOf(s0, s.threads, t, book) == i;
    FinishedReturns(s0, s, k, t);
    assert LentTo(s0, s, book, i, t);
    forall u | LentTo(s0, s, book, i, u) ensures u == t { LenderIsUnique(s0, s, k, book, i, t, u); }
  }

  /** Exactly one thread lent its copy to the reservation at place i. */
  ghost predicate LentOnce(s0: State, s: State, book: BookId, i: nat)
    requires WellKeyed(s0.w)
  {
    exists t :: LentTo(s0, s, book, i, t) && forall u | LentTo(s0, s, book, i, u) :: u == t
  }
}
