/** What concurrent fault-free returns leave, whatever the schedule: the queues, the loans and
    the copies, in terms of the state the returns started from. */
module SagaOutcome {
  import opened Domain
  import opened ReservationQueue
  import opened SagaMachine
  import opened SagaInvariant
  import opened SagaProgress
  import opened SagaSchedule

  // ---------------------------------------------------------------- loans and copies on the way

  /** The auto-loan a return has opened. */
  function OpenedBy(pc: Pc): Option<LoanId> {
    match pc
    case Borrowing(Saga(_, _), AnnounceOpened(lent)) => Some(lent.id)
    case Borrowing(Saga(_, _), FindLent(lent)) => Some(lent.id)
    case Borrowing(Saga(_, _), MarkUnavailable(lent, _)) => Some(lent.id)
    case Handling(_, Succeeded(_, lent)) => Some(lent.id)
    case Handling(_, Unlock(AutoLoan(_, loanId))) => Some(loanId)
    case Done(AutoLoan(_, loanId)) => Some(loanId)
    case _ => None
  }

  /** The copy a return has read and not yet written back. */
  function CarriedCopy(pc: Pc): Option<Copy> {
    match pc
    case Returning(MarkAvailable(_, copy)) => Some(copy)
    case Borrowing(_, OpenLoan(_, copy)) => Some(copy)
    case Borrowing(_, MarkUnavailable(_, copy)) => Some(copy)
    case _ => None
  }

  /** The copy is one of the original ones but for its status. */
  predicate SameCopy(origin: World, copy: Copy) {
    copy.id in origin.copies && copy == origin.copies[copy.id].(status := copy.status)
  }

  /** A loan of an original copy, made out at one instant for the usual time. */
  predicate NewLoan(origin: World, loan: Loan) {
    loan.copyId in origin.copies &&
    loan == BuildLoan(loan.id, loan.member, origin.copies[loan.copyId], loan.borrowedAt)
  }

  predicate Carries(origin: World, pc: Pc) {
    CarriedCopy(pc).Some? ==> SameCopy(origin, CarriedCopy(pc).value)
  }

  ghost predicate SameCopies(origin: World, w: World) {
    && w.copies.Keys == origin.copies.Keys
    && (forall c | c in w.copies :: w.copies[c].id == c && SameCopy(origin, w.copies[c]))
  }

  /** What one move of the return of a loan does to loans and copies. */
  predicate TableMove(origin: World, loans: map<LoanId, Loan>, loan: Loan, pc: Pc, e: Effect, next: Pc) {
    && Carries(origin, next)
    && (OpenedBy(pc).Some? ==> OpenedBy(next) == OpenedBy(pc))
    && (e.PutCopy? ==> e.copy.id == loan.copyId && SameCopy(origin, e.copy))
    && (e.PutLoan? ==>
          || ClosedCopy(loan, e.loan)
          || (e.loan.id !in loans && NewLoan(origin, e.loan) && OpenedBy(next) == Some(e.loan.id)))
  }

  lemma ReturnMovesTables(origin: World, w: World, loan: Loan, r: ReturnStep, c: Choice)
    requires WellKeyed(origin) && SameCopies(origin, w) && !c.fault && Carries(origin, Returning(r))
    requires OnTrack(origin, w, loan, Returning(r))
    ensures var (e, next) := ReturnMove(w, true, r, c); TableMove(origin, w.loans, loan, Returning(r), e, next)
  {
  }

  lemma BorrowMovesTables(origin: World, w: World, loan: Loan, job: Job, claim: Reservation, b: BorrowStep, c: Choice)
    requires WellKeyed(origin) && SameCopies(origin, w) && !c.fault && Fresh(w, c)
    requires Carries(origin, Borrowing(Saga(job, claim), b))
    requires OnTrack(origin, w, loan, Borrowing(Saga(job, claim), b))
    ensures var pc := Borrowing(Saga(job, claim), b);
      var (e, next) := BorrowMove(w, Saga(job, claim), b, c);
      TableMove(origin, w.loans, loan, pc, e, next)
  {
  }

  lemma HandlerMovesTables(origin: World, w: World, loan: Loan, job: Job, h: HandlerStep, c: Choice)
    requires WellKeyed(w) && !c.fault && OnTrack(origin, w, loan, Handling(job, h))
    ensures var (e, next) := HandlerMove(w, job, h, c); TableMove(origin, w.loans, loan, Handling(job, h), e, next)
  {
  }

  lemma MoveMovesTables(origin: World, s: State, t: Tid, loan: Loan, c: Choice)
    requires Enabled(s, t) && WellKeyed(s.w) && WellKeyed(origin) && SameCopies(origin, s.w)
    requires !c.fault && Fresh(s.w, c) && s.subscribed
    requires Carries(origin, s.threads[t]) && OnTrack(origin, s.w, loan, s.threads[t])
    ensures var (e, next) := Move(s, t, c); TableMove(origin, s.w.loans, loan, s.threads[t], e, next)
  {
    match s.threads[t]
    case Returning(r) => ReturnMovesTables(origin, s.w, loan, r, c);
    case Borrowing(Saga(job, claim), b) => BorrowMovesTables(origin, s.w, loan, job, claim, b, c);
    case Handling(job, h) => HandlerMovesTables(origin, s.w, loan, job, h, c);
    case _ =>
  }

  // ---------------------------------------------------------------- loans and copies over a run

  predicate IsReturned(s0: State, t: Tid, id: LoanId) {
    t < |s0.threads| && LoanOf(s0, t).Some? && LoanOf(s0, t).value.id == id
  }

  predicate Opened(s0: State, threads: seq<Pc>, t: Tid, id: LoanId) {
    t < |s0.threads| == |threads| && LoanOf(s0, t).Some? && OpenedBy(threads[t]) == Some(id)
  }

  /** An original loan is as it was, or was closed by its return. */
  ghost predicate LoanKept(s0: State, loans: map<LoanId, Loan>, id: LoanId)
    requires id in s0.w.loans && id in loans
  {
    || loans[id] == s0.w.loans[id]
    || (ClosedCopy(s0.w.loans[id], loans[id]) && exists t :: IsReturned(s0, t, id))
  }

  /** A loan that is not original was opened by one of the returns. */
  ghost predicate LoanAdded(s0: State, threads: seq<Pc>, loans: map<LoanId, Loan>, id: LoanId)
    requires id in loans
  {
    NewLoan(s0.w, loans[id]) && exists t :: Opened(s0, threads, t, id)
  }

  predicate CopyReturned(s0: State, t: Tid, c: CopyId) {
    t < |s0.threads| && LoanOf(s0, t).Some? && LoanOf(s0, t).value.copyId == c
  }

  /** A copy nobody returns is as it was. */
  ghost predicate CopyKept(s0: State, copies: map<CopyId, Copy>, c: CopyId)
    requires c in s0.w.copies && c in copies
  {
    copies[c] == s0.w.copies[c] || exists t :: CopyReturned(s0, t, c)
  }

  ghost predicate LoanTable(s0: State, threads: seq<Pc>, loans: map<LoanId, Loan>) {
    && s0.w.loans.Keys <= loans.Keys
    && (forall id | id in loans ::
          if id in s0.w.loans then LoanKept(s0, loans, id) else LoanAdded(s0, threads, loans, id))
  }

  ghost predicate CopyTable(s0: State, w: World) {
    SameCopies(s0.w, w) && forall c | c in w.copies :: CopyKept(s0, w.copies, c)
  }

  ghost predicate AllCarry(s0: State, threads: seq<Pc>) {
    forall t | 0 <= t < |threads| :: Carries(s0.w, threads[t])
  }

  ghost predicate Tables(s0: State, s: State) {
    LoanTable(s0, s.threads, s.w.loans) && CopyTable(s0, s.w) && AllCarry(s0, s.threads)
  }

  lemma LoansMoved(s0: State, threads: seq<Pc>, loans: map<LoanId, Loan>, t: Tid, loan: Loan, e: Effect, next: Pc)
    requires t < |s0.threads| == |threads| && LoanOf(s0, t) == Some(loan) && WellKeyed(s0.w)
    requires LoanTable(s0, threads, loans) && TableMove(s0.w, loans, loan, threads[t], e, next)
    ensures LoanTable(s0, threads[t := next], if e.PutLoan? then loans[e.loan.id := e.loan] else loans)
  {
    var threads', loans' := threads[t := next], if e.PutLoan? then loans[e.loan.id := e.loan] else loans;
    forall id | id in loans'
      ensures if id in s0.w.loans then LoanKept(s0, loans', id) else LoanAdded(s0, threads', loans', id)
    {
      if e.PutLoan? && id == e.loan.id {
        if id == loan.id { assert IsReturned(s0, t, id); } else { assert Opened(s0, threads', t, id); }
      } else if id !in s0.w.loans {
        var u :| Opened(s0, threads, u, id);
        assert Opened(s0, threads', u, id);
      }
    }
  }

  lemma CopiesMoved(s0: State, s: State, t: Tid, loan: Loan, e: Effect, next: Pc)
    requires t < |s0.threads| == |s.threads| && LoanOf(s0, t) == Some(loan)
    requires CopyTable(s0, s.w) && TableMove(s0.w, s.w.loans, loan, s.threads[t], e, next)
    ensures CopyTable(s0, Apply(s, t, e).w)
  {
    var w' := Apply(s, t, e).w;
    forall c | c in w'.copies
      ensures w'.copies[c].id == c && SameCopy(s0.w, w'.copies[c]) && CopyKept(s0, w'.copies, c)
    {
      if e.PutCopy? && c == e.copy.id { assert CopyReturned(s0, t, c); } else { assert CopyKept(s0, s.w.copies, c); }
    }
  }

  lemma TablesInit(s0: State)
    requires OnlyReturns(s0)
    ensures Tables(s0, s0)
  {
  }

  lemma AppliedLoans(s: State, t: Tid, e: Effect)
    ensures Apply(s, t, e).w.loans == if e.PutLoan? then s.w.loans[e.loan.id := e.loan] else s.w.loans
  {
  }

  lemma TablesKept(s0: State, s: State, t: Tid, c: Choice)
    requires Enabled(s, t) && WellKeyed(s.w) && !c.fault && Fresh(s.w, c) && OnlyReturns(s0)
    requires Frame(s0, s) && AllOnTrack(s0, s) && Tables(s0, s)
    ensures Tables(s0, Step(s, t, c))
  {
    var (e, next) := Move(s, t, c);
    var loan := LoanOf(s0, t).value;
    assert Carries(s0.w, s.threads[t]) && OnTrack(s0.w, s.w, loan, s.threads[t]);
    MoveMovesTables(s0.w, s, t, loan, c);
    LoansMoved(s0, s.threads, s.w.loans, t, loan, e, next);
    CopiesMoved(s0, s, t, loan, e, next);
    AppliedLoans(s, t, e);
    TablesAfter(s0, s, t, e, next);
  }

  lemma TablesAfter(s0: State, s: State, t: Tid, e: Effect, next: Pc)
    requires t < |s.threads| && AllCarry(s0, s.threads) && Carries(s0.w, next)
    requires LoanTable(s0, s.threads[t := next], Apply(s, t, e).w.loans) && CopyTable(s0, Apply(s, t, e).w)
    ensures Tables(s0, Continue(s, t, e, next))
  {
  }

  lemma {:induction false} RunKeepsTables(s0: State, s: State, run: Schedule, k: map<BookId, nat>)
    requires OnlyReturns(s0) && Inv(s) && Track(s0, s, k) && Tables(s0, s) && CanRun(s, run) && FaultFree(run)
    ensures Tables(s0, Run(s, run))
    decreases |run|
  {
    if run != [] {
      var (t, c) := run[0];
      assert !run[0].1.fault && FaultFree(run[1..]);
      InvKept(s, t, c);
      TablesKept(s0, s, t, c);
      var k' := TrackKept(s0, s, t, k, c);
      RunKeepsTables(s0, Step(s, t, c), run[1..], k');
    }
  }

  // ---------------------------------------------------------------- the queues at the end

  /** Exactly the first Reach of each line are fulfilled, and nothing else changed. */
  ghost predicate LinesServed(s0: State, w: World)
    requires WellKeyed(s0.w)
  {
    && w.reservations.Keys == s0.w.reservations.Keys
    && forall id | id in s0.w.reservations ::
         var r := s0.w.reservations[id];
         if Waiting(s0.w, r) then
           w.reservations[id] == r.(fulfilledAt := w.reservations[id].fulfilledAt) &&
           (w.reservations[id].fulfilledAt.Some? <==> Index(Line(s0.w, r.book), r) < Reach(s0, r.book))
         else w.reservations[id] == r
  }

  /** A returned loan is closed; its copy is lent to a place of the line or on the shelf. */
  ghost predicate ReturnSettled(s0: State, s: State, t: Tid)
    requires WellKeyed(s0.w) && t < |s0.threads| && LoanOf(s0, t).Some?
  {
    var loan := LoanOf(s0, t).value;
    loan.id in s.w.loans && !Open(s.w.loans[loan.id]) &&
    (|| Shelved(s.w, loan.copyId, Available)
     || exists i: nat :: i < Reach(s0, loan.book) && LentTo(s0, s, loan.book, i, t))
  }

  lemma FinishedLines(s0: State, s: State, k: map<BookId, nat>)
    requires Track(s0, s, k) && AllDone(s)
    ensures LinesServed(s0, s.w)
  {
    forall id | id in s0.w.reservations
      ensures Taken(k, s0.w.reservations[id].book) == Reach(s0, s0.w.reservations[id].book)
      ensures RowServed(s0.w, s.w.reservations, k, id)
    {
      AllReached(s0, s, k, s0.w.reservations[id].book);
    }
  }

  lemma FinishedReturnSettled(s0: State, s: State, k: map<BookId, nat>, t: Tid)
    requires Track(s0, s, k) && AllDone(s) && t < |s0.threads| && LoanOf(s0, t).Some?
    ensures ReturnSettled(s0, s, t)
  {
    var book := LoanOf(s0, t).value.book;
    FinishedReturns(s0, s, k, t);
    AllReached(s0, s, k, book);
    if s.threads[t].outcome.AutoLoan? {
      TakersAreInStep(s0, s.threads, k, t, book);
      assert LentTo(s0, s, book, PlaceOf(s0, s.threads, t, book), t);
    }
  }

  // ---------------------------------------------------------------- loans and copies at the end

  /** id is the auto-loan of the reservation at place i. */
  ghost predicate PlaceLoan(s0: State, s: State, book: BookId, i: nat, id: LoanId)
    requires WellKeyed(s0.w)
  {
    exists t: Tid :: LentTo(s0, s, book, i, t) && s.threads[t].outcome.loanId == id
  }

  /** Returned loans are closed, other original loans are as they were. */
  ghost predicate OriginalsSettled(s0: State, s: State) {
    && s0.w.loans.Keys <= s.w.loans.Keys
    && (forall id | id in s0.w.loans ::
          if exists t :: IsReturned(s0, t, id) then ClosedCopy(s0.w.loans[id], s.w.loans[id])
          else s.w.loans[id] == s0.w.loans[id])
  }

  /** A further loan is the new loan of a served place. */
  ghost predicate IsPlaced(s0: State, s: State, id: LoanId)
    requires WellKeyed(s0.w)
  {
    exists book, i: nat :: i < Reach(s0, book) && PlaceLoan(s0, s, book, i, id)
  }

  ghost predicate AddedSettled(s0: State, s: State)
    requires WellKeyed(s0.w)
  {
    forall id | id in s.w.loans && id !in s0.w.loans :: NewLoan(s0.w, s.w.loans[id]) && IsPlaced(s0, s, id)
  }

  /** No two places share a loan. */
  ghost predicate PlacesDiffer(s0: State, s: State)
    requires WellKeyed(s0.w)
  {
    forall book, i: nat, book', i': nat, id ::
      PlaceLoan(s0, s, book, i, id) && PlaceLoan(s0, s, book', i', id) ==> book == book' && i == i'
  }

  /** A finished return that opened a loan lent it to a place of the line. */
  lemma OpenedIsPlaced(s0: State, s: State, k: map<BookId, nat>, t: Tid, id: LoanId)
    requires Track(s0, s, k) && AllDone(s) && Opened(s0, s.threads, t, id)
    ensures IsPlaced(s0, s, id)
  {
    var book := LoanOf(s0, t).value.book;
    FinishedReturns(s0, s, k, t);
    AllReached(s0, s, k, book);
    TakersAreInStep(s0, s.threads, k, t, book);
    var i := PlaceOf(s0, s.threads, t, book);
    assert LentTo(s0, s, book, i, t) && PlaceLoan(s0, s, book, i, id);
  }

  lemma ReturnedIsClosed(s0: State, s: State, k: map<BookId, nat>, t: Tid, id: LoanId)
    requires Track(s0, s, k) && AllDone(s) && Tables(s0, s) && OnlyReturns(s0) && IsReturned(s0, t, id)
    ensures id in s0.w.loans && id in s.w.loans && ClosedCopy(s0.w.loans[id], s.w.loans[id])
  {
    FinishedReturns(s0, s, k, t);
    assert LoanKept(s0, s.w.loans, id) && Open(s0.w.loans[id]);
  }

  /** Two returns never lent the same loan. */
  lemma LoansDiffer(s0: State, s: State, t: Tid, u: Tid, book: BookId, i: nat, book': BookId, i': nat)
    requires OnlyReturns(s0) && LentTo(s0, s, book, i, t) && LentTo(s0, s, book', i', u)
    requires s.threads[t].outcome.loanId == s.threads[u].outcome.loanId
    ensures t == u && book == book' && i == i'
  {
    if t != u { ReturnedCopiesDiffer(s0, t, u); }
  }

  lemma FinishedOriginals(s0: State, s: State, k: map<BookId, nat>)
    requires OnlyReturns(s0) && Track(s0, s, k) && AllDone(s) && Tables(s0, s)
    ensures OriginalsSettled(s0, s)
  {
    forall id | id in s0.w.loans
      ensures if exists t :: IsReturned(s0, t, id) then ClosedCopy(s0.w.loans[id], s.w.loans[id])
              else s.w.loans[id] == s0.w.loans[id]
    {
      assert LoanKept(s0, s.w.loans, id);
      if t :| IsReturned(s0, t, id) { ReturnedIsClosed(s0, s, k, t, id); }
    }
  }

  lemma FinishedAdded(s0: State, s: State, k: map<BookId, nat>)
    requires OnlyReturns(s0) && Track(s0, s, k) && AllDone(s) && Tables(s0, s)
    ensures AddedSettled(s0, s)
  {
    forall id | id in s.w.loans && id !in s0.w.loans ensures NewLoan(s0.w, s.w.loans[id]) && IsPlaced(s0, s, id) {
      assert LoanAdded(s0, s.threads, s.w.loans, id);
      var t :| Opened(s0, s.threads, t, id);
      OpenedIsPlaced(s0, s, k, t, id);
    }
  }

  lemma FinishedPlaces(s0: State, s: State)
    requires OnlyReturns(s0)
    ensures PlacesDiffer(s0, s)
  {
    forall book, i: nat, book', i': nat, id | PlaceLoan(s0, s, book, i, id) && PlaceLoan(s0, s, book', i', id)
      ensures book == book' && i == i'
    {
      var t: Tid :| LentTo(s0, s, book, i, t) && s.threads[t].outcome.loanId == id;
      var u: Tid :| LentTo(s0, s, book', i', u) && s.threads[u].outcome.loanId == id;
      LoansDiffer(s0, s, t, u, book, i, book', i');
    }
  }

  // ---------------------------------------------------------------- copies agree again

  /** An open loan at the end: an original one of a copy nobody returned, or the auto-loan of
      the return of its copy. */
  ghost predicate StillOut(s0: State, s: State, id: LoanId, t: Option<Tid>)
    requires id in s.w.loans
  {
    var c := s.w.loans[id].copyId;
    && Shelved(s.w, c, Unavailable)
    && match t
       case None => id in s0.w.loans && s.w.loans[id] == s0.w.loans[id] && forall u :: !CopyReturned(s0, u, c)
       case Some(u) => Opened(s0, s.threads, u, id) && CopyReturned(s0, u, c)
  }

  lemma OpenOriginal(s0: State, s: State, k: map<BookId, nat>, id: LoanId)
    requires OnlyReturns(s0) && Track(s0, s, k) && AllDone(s) && Tables(s0, s)
    requires id in s0.w.loans && id in s.w.loans && Open(s.w.loans[id])
    ensures StillOut(s0, s, id, None)
  {
    FinishedOriginals(s0, s, k);
    var c := s.w.loans[id].copyId;
    assert s.w.loans[id] == s0.w.loans[id];
    forall u ensures !CopyReturned(s0, u, c) {
      assert CopyReturned(s0, u, c) ==> IsReturned(s0, u, id);
    }
    assert CopyKept(s0, s.w.copies, c);
  }

  lemma OpenedIsOut(s0: State, s: State, k: map<BookId, nat>, t: Tid, id: LoanId)
    requires Track(s0, s, k) && AllDone(s) && Opened(s0, s.threads, t, id)
    ensures id in s.w.loans && CopyReturned(s0, t, s.w.loans[id].copyId)
    ensures Shelved(s.w, s.w.loans[id].copyId, Unavailable)
  {
    FinishedReturns(s0, s, k, t);
  }

  lemma OpenAdded(s0: State, s: State, k: map<BookId, nat>, id: LoanId) returns (t: Tid)
    requires OnlyReturns(s0) && Track(s0, s, k) && AllDone(s) && Tables(s0, s)
    requires id !in s0.w.loans && id in s.w.loans
    ensures StillOut(s0, s, id, Some(t))
  {
    assert LoanAdded(s0, s.threads, s.w.loans, id);
    t :| Opened(s0, s.threads, t, id);
    OpenedIsOut(s0, s, k, t, id);
  }

  lemma OutIsExclusive(s0: State, s: State, i: LoanId, j: LoanId, t: Option<Tid>, u: Option<Tid>)
    requires OnlyReturns(s0) && i in s.w.loans && j in s.w.loans && Open(s.w.loans[i]) && Open(s.w.loans[j])
    requires StillOut(s0, s, i, t) && StillOut(s0, s, j, u) && s.w.loans[i].copyId == s.w.loans[j].copyId
    ensures i == j
  {
    if t.Some? && u.Some? && t.value != u.value { ReturnedCopiesDiffer(s0, t.value, u.value); }
  }

  lemma Out(s0: State, s: State, k: map<BookId, nat>, id: LoanId) returns (t: Option<Tid>)
    requires OnlyReturns(s0) && Track(s0, s, k) && AllDone(s) && Tables(s0, s)
    requires id in s.w.loans && Open(s.w.loans[id])
    ensures StillOut(s0, s, id, t)
  {
    if id in s0.w.loans {
      OpenOriginal(s0, s, k, id);
      t := None;
    } else {
      var u := OpenAdded(s0, s, k, id);
      t := Some(u);
    }
  }

  lemma FinishedAgree(s0: State, s: State, k: map<BookId, nat>)
    requires OnlyReturns(s0) && Track(s0, s, k) && AllDone(s) && Tables(s0, s)
    ensures LoansAgree(s.w)
  {
    forall id | id in s.w.loans && Open(s.w.loans[id]) ensures Shelved(s.w, s.w.loans[id].copyId, Unavailable) {
      var t := Out(s0, s, k, id);
    }
    forall i, j | i in s.w.loans && j in s.w.loans && i != j && Open(s.w.loans[i]) && Open(s.w.loans[j])
      ensures s.w.loans[i].copyId != s.w.loans[j].copyId
    {
      if s.w.loans[i].copyId == s.w.loans[j].copyId {
        var t := Out(s0, s, k, i);
        var u := Out(s0, s, k, j);
        OutIsExclusive(s0, s, i, j, t, u);
      }
    }
  }

  // ---------------------------------------------------------------- in the fields

  /** A pending reservation whose reserver is in good standing. */
  predicate InLineAt(w: World, id: ReservationId) {
    && id in w.reservations && w.reservations[id].fulfilledAt == None
    && w.reservations[id].member in w.members && w.members[w.reservations[id].member] == Active
  }

  /** If a waiting reservation is fulfilled, so is every waiting one of its book that was made
      earlier. */
  ghost predicate EarlierServedToo(s0: State, s: State)
    requires s0.w.reservations.Keys <= s.w.reservations.Keys
  {
    forall a, b | InLineAt(s0.w, a) && InLineAt(s0.w, b) ::
      var first, second := s0.w.reservations[a], s0.w.reservations[b];
      first.book == second.book && s.w.reservations[b].fulfilledAt != None &&
      (first.reservedAt < second.reservedAt || (first.reservedAt == second.reservedAt && a < b)) ==>
        s.w.reservations[a].fulfilledAt != None
  }

  lemma ServedEarlierFirst(s0: State, s: State)
    requires WellKeyed(s0.w) && LinesServed(s0, s.w)
    ensures EarlierServedToo(s0, s)
  {
    forall a, b | InLineAt(s0.w, a) && InLineAt(s0.w, b)
      ensures var first, second := s0.w.reservations[a], s0.w.reservations[b];
        first.book == second.book && s.w.reservations[b].fulfilledAt != None &&
        (first.reservedAt < second.reservedAt || (first.reservedAt == second.reservedAt && a < b)) ==>
          s.w.reservations[a].fulfilledAt != None
    {
      var first, second := s0.w.reservations[a], s0.w.reservations[b];
      if first.book == second.book {
        LineIsSorted(s0.w, first.book);
        InLine(s0.w, first.book, first);
        InLine(s0.w, first.book, second);
        var line := Line(s0.w, first.book);
        var i, j := Index(line, first), Index(line, second);
        assert j < i ==> Before(line[j], line[i]);
      }
    }
  }

  /** A further loan: open, for 14 days, of a copy that was returned, to the reserver of a
      reservation of that book that waited at the start and is fulfilled now. */
  ghost predicate MadeOut(s0: State, s: State, n: Loan)
    requires s0.w.reservations.Keys <= s.w.reservations.Keys
  {
    && n.returnedAt == None && n.dueDate == n.borrowedAt + 14 * 24 * 60 * 60 * 1_000_000_000
    && n.copyId in s0.w.copies && n.book == s0.w.copies[n.copyId].book
    && exists l, r :: Hands(s0, s, n, l, r)
  }

  ghost predicate Hands(s0: State, s: State, n: Loan, l: LoanId, r: ReservationId)
    requires s0.w.reservations.Keys <= s.w.reservations.Keys
  {
    && l in s0.w.loans && s0.w.loans[l].returnedAt == None
    && l in s.w.loans && s.w.loans[l].returnedAt != None && s0.w.loans[l].copyId == n.copyId
    && InLineAt(s0.w, r) && s.w.reservations[r].fulfilledAt != None
    && s0.w.reservations[r].book == s0.w.loans[l].book && s0.w.reservations[r].member == n.member
  }

  lemma PlaceWaited(s0: State, s: State, book: BookId, i: nat, t: Tid)
    requires WellKeyed(s0.w) && LinesServed(s0, s.w) && i < Reach(s0, book) && LentTo(s0, s, book, i, t)
    ensures var claim := s.threads[t].outcome.claim;
      && InLineAt(s0.w, claim.id) && s.w.reservations[claim.id].fulfilledAt != None
      && s0.w.reservations[claim.id].book == book && s0.w.reservations[claim.id].member == claim.member
  {
    var r := s.threads[t].outcome.claim.(fulfilledAt := None);
    assert Line(s0.w, book)[i] == r;
    InLine(s0.w, book, r);
  }

  ghost predicate OpenReturned(s0: State) {
    WellKeyed(s0.w) &&
    forall t | 0 <= t < |s0.threads| && LoanOf(s0, t).Some? :: LoanOf(s0, t).value.returnedAt == None
  }

  lemma PlaceIsHanded(s0: State, s: State, book: BookId, i: nat, t: Tid)
    requires OpenReturned(s0) && LinesServed(s0, s.w) && i < Reach(s0, book) && LentTo(s0, s, book, i, t)
    requires ReturnSettled(s0, s, t)
    ensures var id := s.threads[t].outcome.loanId;
      id in s.w.loans && Hands(s0, s, s.w.loans[id], LoanOf(s0, t).value.id, s.threads[t].outcome.claim.id)
  {
    PlaceWaited(s0, s, book, i, t);
  }

  lemma AddedMadeOut(s0: State, s: State, id: LoanId)
    requires OpenReturned(s0) && LinesServed(s0, s.w) && AddedSettled(s0, s)
    requires forall t | 0 <= t < |s0.threads| && LoanOf(s0, t).Some? :: ReturnSettled(s0, s, t)
    requires id in s.w.loans && id !in s0.w.loans
    ensures MadeOut(s0, s, s.w.loans[id])
  {
    assert NewLoan(s0.w, s.w.loans[id]) && IsPlaced(s0, s, id);
    NewLoanInFields(s0.w, s.w.loans[id]);
    PlacedIsHanded(s0, s, id);
  }

  lemma PlacedIsHanded(s0: State, s: State, id: LoanId)
    requires OpenReturned(s0) && LinesServed(s0, s.w) && IsPlaced(s0, s, id)
    requires forall t | 0 <= t < |s0.threads| && LoanOf(s0, t).Some? :: ReturnSettled(s0, s, t)
    ensures id in s.w.loans && exists l, r :: Hands(s0, s, s.w.loans[id], l, r)
  {
    var book, i: nat :| i < Reach(s0, book) && PlaceLoan(s0, s, book, i, id);
    var t: Tid :| LentTo(s0, s, book, i, t) && s.threads[t].outcome.loanId == id;
    PlaceIsHanded(s0, s, book, i, t);
  }

  lemma NewLoanInFields(origin: World, n: Loan)
    requires WellKeyed(origin) && NewLoan(origin, n)
    ensures n.returnedAt == None && n.dueDate == n.borrowedAt + 14 * 24 * 60 * 60 * 1_000_000_000
    ensures n.copyId in origin.copies && n.book == origin.copies[n.copyId].book
  {
  }

  // ---------------------------------------------------------------- the theorem

  /** The result of the returns, in terms of the state they started from: queues, loans and
      copies. */
  ghost predicate ServedAsAQueue(s0: State, s: State)
    requires WellKeyed(s0.w)
  {
    && LinesServed(s0, s.w)
    && (forall book, i: nat :: i < Reach(s0, book) ==> LentOnce(s0, s, book, i))
    && (forall t | 0 <= t < |s0.threads| && LoanOf(s0, t).Some? :: ReturnSettled(s0, s, t))
    && OriginalsSettled(s0, s) && AddedSettled(s0, s) && PlacesDiffer(s0, s)
    && CopyTable(s0, s.w) && LoansAgree(s.w)
  }

  /** The same of rows alone: earlier reservations first, and every further loan made out to one
      of their reservers. */
  ghost predicate InTheFields(s0: State, s: State) {
    && s.w.reservations.Keys == s0.w.reservations.Keys
    && EarlierServedToo(s0, s)
    && forall id | id in s.w.loans && id !in s0.w.loans :: MadeOut(s0, s, s.w.loans[id])
  }

  lemma ReturnedAreOpen(s0: State)
    requires OnlyReturns(s0)
    ensures OpenReturned(s0)
  {
  }

  lemma FurtherMadeOut(s0: State, s: State)
    requires OpenReturned(s0) && LinesServed(s0, s.w) && AddedSettled(s0, s)
    requires forall t | 0 <= t < |s0.threads| && LoanOf(s0, t).Some? :: ReturnSettled(s0, s, t)
    ensures forall id | id in s.w.loans && id !in s0.w.loans :: MadeOut(s0, s, s.w.loans[id])
  {
    forall id | id in s.w.loans && id !in s0.w.loans ensures MadeOut(s0, s, s.w.loans[id]) {
      AddedMadeOut(s0, s, id);
    }
  }

  lemma SettledInTheFields(s0: State, s: State)
    requires OpenReturned(s0) && ServedAsAQueue(s0, s)
    ensures InTheFields(s0, s)
  {
    ServedEarlierFirst(s0, s);
    FurtherMadeOut(s0, s);
  }

  lemma FinishedTrackServes(s0: State, s: State, k: map<BookId, nat>)
    requires Track(s0, s, k) && AllDone(s)
    ensures LinesServed(s0, s.w)
    ensures forall book, i: nat :: i < Reach(s0, book) ==> LentOnce(s0, s, book, i)
    ensures forall t | 0 <= t < |s0.threads| && LoanOf(s0, t).Some? :: ReturnSettled(s0, s, t)
  {
    FinishedLines(s0, s, k);
    forall book, i: nat ensures i < Reach(s0, book) ==> LentOnce(s0, s, book, i) {
      AllReached(s0, s, k, book);
      if i < Reach(s0, book) { PlaceIsLent(s0, s, k, book, i); }
    }
    forall t | 0 <= t < |s0.threads| && LoanOf(s0, t).Some? ensures ReturnSettled(s0, s, t) {
      FinishedReturnSettled(s0, s, k, t);
    }
  }

  lemma Settled(s0: State, s: State, k: map<BookId, nat>)
    requires OnlyReturns(s0) && Track(s0, s, k) && AllDone(s) && Tables(s0, s)
    ensures ServedAsAQueue(s0, s)
  {
    FinishedTrackServes(s0, s, k);
    FinishedOriginals(s0, s, k);
    FinishedAdded(s0, s, k);
    FinishedPlaces(s0, s);
    FinishedAgree(s0, s, k);
  }

  /** Schedule independence: however fault-free returns of distinct open loans interleave, each
      book's eligible reservers are served in queue order, one for each returned copy. The
      returned loans are closed, each served place has one new loan and there are no others,
      copies nobody returned are untouched, and loans and copies agree as they did before. */
  lemma ScheduleIndependence(s0: State, run: Schedule)
    requires OnlyReturns(s0) && CanRun(s0, run) && FaultFree(run) && AllDone(Run(s0, run))
    ensures ServedAsAQueue(s0, Run(s0, run))
    ensures InTheFields(s0, Run(s0, run))
  {
    TrackInit(s0);
    TablesInit(s0);
    RunKeepsTables(s0, s0, run, map[]);
    var k := RunOnTrack(s0, s0, run, map[]);
    Settled(s0, Run(s0, run), k);
    ReturnedAreOpen(s0);
    SettledInTheFields(s0, Run(s0, run));
  }

  function FulfilledIds(w: World): set<ReservationId> {
    set id | id in w.reservations && w.reservations[id].fulfilledAt.Some?
  }

  lemma ServedDeterminesFulfilled(s0: State, s1: State, s2: State)
    requires WellKeyed(s0.w) && ServedAsAQueue(s0, s1) && ServedAsAQueue(s0, s2)
    ensures FulfilledIds(s1.w) == FulfilledIds(s2.w)
  {
  }

  /** Any two complete schedules fulfil the same reservations. */
  lemma SchedulesAgree(s0: State, run1: Schedule, run2: Schedule)
    requires OnlyReturns(s0) && CanRun(s0, run1) && CanRun(s0, run2) && FaultFree(run1) && FaultFree(run2)
    requires AllDone(Run(s0, run1)) && AllDone(Run(s0, run2))
    ensures FulfilledIds(Run(s0, run1).w) == FulfilledIds(Run(s0, run2).w)
  {
    ScheduleIndependence(s0, run1);
    ScheduleIndependence(s0, run2);
    ServedDeterminesFulfilled(s0, Run(s0, run1), Run(s0, run2));
  }
}
