/** What sequential runs of the lending operations keep, with the saga attached and under
    every pattern of faults. */
module LendingTheorems {
  import opened Domain
  import opened ReservationQueue
  import opened LendingSpec

  // ---------------------------------------------------------------- operations and runs

  datatype Op =
    | RegisterMemberOp(member: MemberId)
    | RegisterCopyOp(copyId: CopyId, book: BookId)
    | BorrowOp(role: Role, member: MemberId, copyId: CopyId, bf: BorrowFaults, loanId: LoanId, now: int)
    | ReserveOp(member: MemberId, book: BookId, checkFault: bool, saveFault: bool, rid: ReservationId, now: int)
    | ReturnOp(returned: LoanId, rf: ReturnFaults, loanId: LoanId, now: int)
    | StatusOp(member: MemberId, status: MembershipStatus, fault: bool)
    | StartOp
    | StopOp

  ghost function Perform(lib: Library, op: Op): Library
    requires WellKeyed(lib.w)
  {
    match op
    case RegisterMemberOp(m) => lib.(w := lib.w.(members := lib.w.members[m := Active]))
    case RegisterCopyOp(c, book) => lib.(w := lib.w.(copies := lib.w.copies[c := Copy(c, book, Available)]))
    case BorrowOp(role, m, c, f, id, now) => Borrow(lib, role, m, c, f, id, now).0
    case ReserveOp(m, book, cf, sf, id, now) => Reserve(lib, m, book, cf, sf, id, now).0
    case ReturnOp(l, f, id, now) => ReturnLoan(lib, l, f, id, now).0
    case StatusOp(m, status, fault) => SetStatus(lib, m, status, fault).0
    case StartOp => lib.(subscribed := true)
    case StopOp => lib.(subscribed := false)
  }

  /** Identifiers are fresh, and only loans still open (or unknown) are returned. */
  predicate Allowed(lib: Library, op: Op) {
    match op
    case RegisterMemberOp(m) => m !in lib.w.members
    case RegisterCopyOp(c, _) => c !in lib.w.copies
    case BorrowOp(_, _, _, _, id, _) => id !in lib.w.loans
    case ReserveOp(_, _, _, _, id, _) => id !in lib.w.reservations
    case ReturnOp(l, _, id, _) => id !in lib.w.loans && (l in lib.w.loans ==> Open(lib.w.loans[l]))
    case _ => true
  }

  const EMPTY: Library := Library(World(map[], map[], map[], map[], []), {}, false)

  lemma PerformKeepsKeys(lib: Library, op: Op)
    requires WellKeyed(lib.w)
    ensures WellKeyed(Perform(lib, op).w)
  {
    match op
    case ReturnOp(l, f, id, now) => ReturnKeepsKeys(lib, l, f, id, now);
    case _ =>
  }

  lemma BorrowKeepsKeys(lib: Library, role: Role, m: MemberId, c: CopyId, f: BorrowFaults, id: LoanId, now: int)
    requires WellKeyed(lib.w)
    ensures WellKeyed(Borrow(lib, role, m, c, f, id, now).0.w)
  {
  }

  lemma AttemptKeepsKeys(lib: Library, r: Reservation, copyId: CopyId, f: HandlerFaults, id: LoanId, now: int)
    requires WellKeyed(lib.w)
    ensures WellKeyed(Attempt(lib, r, copyId, f, id, now).w)
  {
    BorrowKeepsKeys(Claimed(lib, r, now), RoleMember, r.member, copyId, f.borrow, id, now);
  }

  /** The state between the claim's transaction and the borrow. */
  function Claimed(lib: Library, r: Reservation, now: int): Library {
    Publish(PutReservation(lib, r.(fulfilledAt := Some(now))), ReservationFulfilled(r.id, r.member, r.book, now))
  }

  /** The state in which a successful return leaves the library to the consumer. */
  function Returned(lib: Library, loan: Loan, f: ReturnFaults, now: int): (Library, bool) {
    var closed := loan.(returnedAt := Some(now));
    var (marked, ok) := Mark(PutLoan(lib, closed), closed.copyId, Available, f.markFind, f.markSave);
    if ok then (Publish(marked, LoanReturnedEvent(closed, now)), true) else (marked, false)
  }

  lemma ReturnedKeepsKeys(lib: Library, loan: Loan, f: ReturnFaults, now: int)
    requires WellKeyed(lib.w)
    ensures WellKeyed(Returned(lib, loan, f, now).0.w)
  {
  }

  ghost predicate AttemptedOne(own: Library, after: Library, loan: Loan, f: HandlerFaults, id: LoanId, now: int)
    requires WellKeyed(own.w)
  {
    exists r :: r in PendingQueue(own.w.reservations, loan.book) && after == Attempt(own, r, loan.copyId, f, id, now)
  }

  /** A return is its own part followed, if that succeeded, by at most one attempt. */
  lemma ReturnInTwoParts(lib: Library, l: LoanId, f: ReturnFaults, id: LoanId, now: int)
    requires WellKeyed(lib.w)
    ensures
      var after := ReturnLoan(lib, l, f, id, now).0;
      || after == lib
      || (l in lib.w.loans &&
          var (own, ok) := Returned(lib, lib.w.loans[l], f, now);
          WellKeyed(own.w) &&
          (after == own || (ok && AttemptedOne(own, after, lib.w.loans[l], f.handler, id, now))))
  {
    if l in lib.w.loans && !f.find && !f.save {
      var (own, ok) := Returned(lib, lib.w.loans[l], f, now);
      ReturnedKeepsKeys(lib, lib.w.loans[l], f, now);
      if ok && lib.subscribed && !f.handler.list {
        var queue := PendingQueue(own.w.reservations, lib.w.loans[l].book);
        FirstEligibleIsQueued(own.w.members, queue, f.handler.eligibility);
      }
    }
  }

  lemma {:induction false} FirstEligibleIsQueued(
    members: map<MemberId, MembershipStatus>, q: seq<Reservation>, faulty: set<ReservationId>)
    ensures var r := FirstEligible(members, q, faulty);
            r.Some? ==> r.value in q && CheckEligibility(members, r.value.member, r.value.id in faulty).Eligible?
  {
    if q != [] { FirstEligibleIsQueued(members, q[1..], faulty); }
  }

  lemma ReturnKeepsKeys(lib: Library, l: LoanId, f: ReturnFaults, id: LoanId, now: int)
    requires WellKeyed(lib.w)
    ensures WellKeyed(ReturnLoan(lib, l, f, id, now).0.w)
  {
    ReturnInTwoParts(lib, l, f, id, now);
    if l in lib.w.loans {
      ReturnedKeepsKeys(lib, lib.w.loans[l], f, now);
      var own := Returned(lib, lib.w.loans[l], f, now).0;
      var after := ReturnLoan(lib, l, f, id, now).0;
      if AttemptedOne(own, after, lib.w.loans[l], f.handler, id, now) {
        var r :| r in PendingQueue(own.w.reservations, lib.w.loans[l].book) &&
          after == Attempt(own, r, lib.w.loans[l].copyId, f.handler, id, now);
        AttemptKeepsKeys(own, r, lib.w.loans[l].copyId, f.handler, id, now);
      }
    }
  }

  ghost predicate CanPerform(lib: Library, ops: seq<Op>)
    requires WellKeyed(lib.w)
    decreases |ops|
  {
    ops == [] || (Allowed(lib, ops[0]) && (PerformKeepsKeys(lib, ops[0]); CanPerform(Perform(lib, ops[0]), ops[1..])))
  }

  ghost function After(lib: Library, ops: seq<Op>): (final: Library)
    requires WellKeyed(lib.w) && CanPerform(lib, ops)
    ensures WellKeyed(final.w)
    decreases |ops|
  {
    if ops == [] then lib else PerformKeepsKeys(lib, ops[0]); After(Perform(lib, ops[0]), ops[1..])
  }

  // ---------------------------------------------------------------- copies and open loans

  type Loans = map<LoanId, Loan>

  ghost predicate OpenOn(loans: Loans, l: LoanId, c: CopyId) {
    l in loans && Open(loans[l]) && loans[l].copyId == c
  }

  /** An available copy has no open loan, an unavailable one exactly one. */
  ghost predicate StatusFits(loans: Loans, c: CopyId, status: CopyStatus) {
    match status
    case Available => forall l :: !OpenOn(loans, l, c)
    case Unavailable => exists l :: OpenOn(loans, l, c) && forall k | OpenOn(loans, k, c) :: k == l
  }

  /** Copies and open loans agree wherever no Mark call failed. */
  ghost predicate Agrees(lib: Library) {
    && WellKeyed(lib.w)
    && (forall l | l in lib.w.loans :: lib.w.loans[l].copyId in lib.w.copies)
    && (forall c | c in lib.w.copies && c !in lib.tainted :: StatusFits(lib.w.loans, c, lib.w.copies[c].status))
  }

  lemma OtherCopiesUnaffected(loans: Loans, loan: Loan, c: CopyId, status: CopyStatus)
    requires StatusFits(loans, c, status) && loan.copyId != c
    requires loan.id in loans ==> loans[loan.id].copyId == loan.copyId
    ensures StatusFits(loans[loan.id := loan], c, status)
  {
    var loans' := loans[loan.id := loan];
    assert forall l :: OpenOn(loans', l, c) <==> OpenOn(loans, l, c);
  }

  lemma LendingFits(loans: Loans, loan: Loan)
    requires StatusFits(loans, loan.copyId, Available) && loan.id !in loans && Open(loan)
    ensures StatusFits(loans[loan.id := loan], loan.copyId, Unavailable)
  {
    var loans' := loans[loan.id := loan];
    assert OpenOn(loans', loan.id, loan.copyId);
    forall k | OpenOn(loans', k, loan.copyId) ensures k == loan.id {
      assert !OpenOn(loans, k, loan.copyId);
    }
  }

  lemma ClosingFits(loans: Loans, loan: Loan, status: CopyStatus)
    requires StatusFits(loans, loan.copyId, status) && !Open(loan) && OpenOn(loans, loan.id, loan.copyId)
    ensures StatusFits(loans[loan.id := loan], loan.copyId, Available)
  {
    var loans' := loans[loan.id := loan];
    forall k ensures !OpenOn(loans', k, loan.copyId) {
      assert OpenOn(loans, k, loan.copyId) ==> k == loan.id;
    }
  }

  /** Only reservations, subscriptions and events changed. */
  predicate SameLoans(a: Library, b: Library) {
    a.w.copies == b.w.copies && a.w.loans == b.w.loans && a.tainted == b.tainted
  }

  /** Lending or taking back one copy, and marking it or failing to. */
  predicate OneLoan(a: Library, b: Library, loan: Loan) {
    && loan.copyId in a.w.copies
    && b.w.loans == a.w.loans[loan.id := loan]
    && (|| (b.w.copies == a.w.copies && b.tainted == a.tainted + {loan.copyId})
        || (b.tainted == a.tainted &&
            var status := if Open(loan) then Unavailable else Available;
            b.w.copies == a.w.copies[loan.copyId := a.w.copies[loan.copyId].(status := status)]))
  }

  lemma OneLoanAgrees(a: Library, b: Library, loan: Loan)
    requires Agrees(a) && WellKeyed(b.w) && OneLoan(a, b, loan)
    requires if Open(loan) then loan.id !in a.w.loans && a.w.copies[loan.copyId].status == Available
             else OpenOn(a.w.loans, loan.id, loan.copyId)
    ensures Agrees(b)
  {
    forall c | c in b.w.copies && c !in b.tainted ensures StatusFits(b.w.loans, c, b.w.copies[c].status) {
      assert StatusFits(a.w.loans, c, a.w.copies[c].status);
      if c != loan.copyId {
        OtherCopiesUnaffected(a.w.loans, loan, c, a.w.copies[c].status);
      } else if Open(loan) {
        LendingFits(a.w.loans, loan);
      } else {
        ClosingFits(a.w.loans, loan, a.w.copies[c].status);
      }
    }
  }

  /** Borrow changes nothing, or opens one loan on an available copy. */
  lemma BorrowIsOneLoan(lib: Library, role: Role, m: MemberId, c: CopyId, f: BorrowFaults, id: LoanId, now: int)
    requires WellKeyed(lib.w)
    ensures var after := Borrow(lib, role, m, c, f, id, now).0;
            || after == lib
            || (c in lib.w.copies && lib.w.copies[c].status == Available &&
                var loan := BuildLoan(id, m, lib.w.copies[c], now);
                loan.copyId == c && OneLoan(lib, after, loan) && after.w.log == lib.w.log + [LoanOpenedEvent(loan)])
  {
  }

  lemma BorrowAgrees(lib: Library, role: Role, m: MemberId, c: CopyId, f: BorrowFaults, id: LoanId, now: int)
    requires Agrees(lib) && id !in lib.w.loans
    ensures Agrees(Borrow(lib, role, m, c, f, id, now).0)
  {
    BorrowIsOneLoan(lib, role, m, c, f, id, now);
    BorrowKeepsKeys(lib, role, m, c, f, id, now);
    var after := Borrow(lib, role, m, c, f, id, now).0;
    if after != lib { OneLoanAgrees(lib, after, BuildLoan(id, m, lib.w.copies[c], now)); }
  }

  /** An attempt changes loans and copies as its borrow does. */
  lemma AttemptBorrows(lib: Library, r: Reservation, c: CopyId, f: HandlerFaults, id: LoanId, now: int)
    ensures var after := Attempt(lib, r, c, f, id, now);
            var lent := Borrow(Claimed(lib, r, now), RoleMember, r.member, c, f.borrow, id, now).0;
            SameLoans(after, lib) || SameLoans(after, lent)
  {
  }

  lemma SameLoansAgree(a: Library, b: Library)
    requires Agrees(a) && SameLoans(b, a) && WellKeyed(b.w)
    ensures Agrees(b)
  {
  }

  lemma AttemptAgrees(lib: Library, r: Reservation, c: CopyId, f: HandlerFaults, id: LoanId, now: int)
    requires Agrees(lib) && id !in lib.w.loans
    ensures Agrees(Attempt(lib, r, c, f, id, now))
  {
    var claimed := Claimed(lib, r, now);
    AttemptBorrows(lib, r, c, f, id, now);
    AttemptKeepsKeys(lib, r, c, f, id, now);
    SameLoansAgree(lib, claimed);
    BorrowAgrees(claimed, RoleMember, r.member, c, f.borrow, id, now);
    var after := Attempt(lib, r, c, f, id, now);
    if SameLoans(after, lib) { SameLoansAgree(lib, after); }
    else { SameLoansAgree(Borrow(claimed, RoleMember, r.member, c, f.borrow, id, now).0, after); }
  }

  lemma ReturnedAgrees(lib: Library, loan: Loan, f: ReturnFaults, now: int)
    requires Agrees(lib) && OpenOn(lib.w.loans, loan.id, loan.copyId) && lib.w.loans[loan.id] == loan
    ensures Agrees(Returned(lib, loan, f, now).0)
  {
    ReturnedKeepsKeys(lib, loan, f, now);
    OneLoanAgrees(lib, Returned(lib, loan, f, now).0, loan.(returnedAt := Some(now)));
  }

  lemma ReturnAgrees(lib: Library, l: LoanId, f: ReturnFaults, id: LoanId, now: int)
    requires Agrees(lib) && Allowed(lib, ReturnOp(l, f, id, now))
    ensures Agrees(ReturnLoan(lib, l, f, id, now).0)
  {
    ReturnInTwoParts(lib, l, f, id, now);
    if l in lib.w.loans {
      ReturnedAgrees(lib, lib.w.loans[l], f, now);
      var own := Returned(lib, lib.w.loans[l], f, now).0;
      assert id !in own.w.loans;
      var after := ReturnLoan(lib, l, f, id, now).0;
      if AttemptedOne(own, after, lib.w.loans[l], f.handler, id, now) {
        var r :| r in PendingQueue(own.w.reservations, lib.w.loans[l].book) &&
          after == Attempt(own, r, lib.w.loans[l].copyId, f.handler, id, now);
        AttemptAgrees(own, r, lib.w.loans[l].copyId, f.handler, id, now);
      }
    }
  }

  // ---------------------------------------------------------------- loans and the log

  /** Every persisted loan was announced, and LoanReturned names only closed loans. */
  ghost predicate LogFits(loans: Loans, log: seq<Event>) {
    && loans.Keys == OpenedIds(log)
    && (forall e | e in log && e.LoanReturned? :: e.loanId in loans && !Open(loans[e.loanId]))
  }

  lemma OtherEventsFit(loans: Loans, log: seq<Event>, e: Event)
    requires LogFits(loans, log) && !e.LoanOpened?
    requires e.LoanReturned? ==> e.loanId in loans && !Open(loans[e.loanId])
    ensures LogFits(loans, log + [e])
  {
  }

  lemma BorrowLogs(lib: Library, role: Role, m: MemberId, c: CopyId, f: BorrowFaults, id: LoanId, now: int)
    requires WellKeyed(lib.w) && LogFits(lib.w.loans, lib.w.log) && id !in lib.w.loans
    ensures var after := Borrow(lib, role, m, c, f, id, now).0; LogFits(after.w.loans, after.w.log)
  {
  }

  /** What the consumer publishes after its borrow, and nothing else. */
  lemma AttemptPublishes(lib: Library, r: Reservation, c: CopyId, f: HandlerFaults, id: LoanId, now: int)
    ensures var after := Attempt(lib, r, c, f, id, now);
            var (lent, result) := Borrow(Claimed(lib, r, now), RoleMember, r.member, c, f.borrow, id, now);
            after == lib
            || (after.w.loans == lent.w.loans &&
                after.w.log == lent.w.log + AttemptEvents(r, f, result, now))
  {
  }

  function AttemptEvents(r: Reservation, f: HandlerFaults, result: Result<Loan, BorrowError>, now: int): seq<Event> {
    match result
    case Ok(loan) => [AutoLoanOpened(loan.book, loan.id, loan.member, r.id, now)]
    case Err(e) =>
      (if f.unfulfil then [] else [ReservationUnfulfilled(r.id, r.member, r.book, now)]) +
      [AutoLoanFailed(r.book, r.id, r.member, e, now)]
  }

  lemma {:induction false} SagaEventsFit(loans: Loans, log: seq<Event>, events: seq<Event>)
    requires LogFits(loans, log) && forall e | e in events :: !e.LoanOpened? && !e.LoanReturned?
    ensures LogFits(loans, log + events)
    decreases |events|
  {
  }

  lemma AttemptLogs(lib: Library, r: Reservation, c: CopyId, f: HandlerFaults, id: LoanId, now: int)
    requires WellKeyed(lib.w) && LogFits(lib.w.loans, lib.w.log) && id !in lib.w.loans
    ensures var after := Attempt(lib, r, c, f, id, now); LogFits(after.w.loans, after.w.log)
  {
    var claimed := Claimed(lib, r, now);
    OtherEventsFit(lib.w.loans, lib.w.log, ReservationFulfilled(r.id, r.member, r.book, now));
    BorrowLogs(claimed, RoleMember, r.member, c, f.borrow, id, now);
    AttemptPublishes(lib, r, c, f, id, now);
    var (lent, result) := Borrow(claimed, RoleMember, r.member, c, f.borrow, id, now);
    SagaEventsFit(lent.w.loans, lent.w.log, AttemptEvents(r, f, result, now));
  }

  lemma ReturnedLogs(lib: Library, loan: Loan, f: ReturnFaults, now: int)
    requires WellKeyed(lib.w) && LogFits(lib.w.loans, lib.w.log) && loan.id in lib.w.loans
    ensures var own := Returned(lib, loan, f, now).0; LogFits(own.w.loans, own.w.log)
  {
  }

  lemma ReturnLogs(lib: Library, l: LoanId, f: ReturnFaults, id: LoanId, now: int)
    requires WellKeyed(lib.w) && LogFits(lib.w.loans, lib.w.log) && id !in lib.w.loans
    ensures var after := ReturnLoan(lib, l, f, id, now).0; LogFits(after.w.loans, after.w.log)
  {
    ReturnInTwoParts(lib, l, f, id, now);
    if l in lib.w.loans {
      ReturnedLogs(lib, lib.w.loans[l], f, now);
      ReturnedKeepsKeys(lib, lib.w.loans[l], f, now);
      var own := Returned(lib, lib.w.loans[l], f, now).0;
      var after := ReturnLoan(lib, l, f, id, now).0;
      if AttemptedOne(own, after, lib.w.loans[l], f.handler, id, now) {
        var r :| r in PendingQueue(own.w.reservations, lib.w.loans[l].book) &&
          after == Attempt(own, r, lib.w.loans[l].copyId, f.handler, id, now);
        AttemptLogs(own, r, lib.w.loans[l].copyId, f.handler, id, now);
      }
    }
  }

  // ---------------------------------------------------------------- agreement over runs

  ghost predicate Sound(lib: Library) {
    Agrees(lib) && LogFits(lib.w.loans, lib.w.log)
  }

  lemma ReserveIsNoLoan(lib: Library, m: MemberId, b: BookId, cf: bool, sf: bool, id: ReservationId, now: int)
    requires Sound(lib)
    ensures Sound(Reserve(lib, m, b, cf, sf, id, now).0)
  {
  }

  lemma NewCopyAgrees(lib: Library, c: CopyId, b: BookId)
    requires Sound(lib) && c !in lib.w.copies
    ensures Sound(Perform(lib, RegisterCopyOp(c, b)))
  {
  }

  lemma PerformSound(lib: Library, op: Op)
    requires Sound(lib) && Allowed(lib, op)
    ensures Sound(Perform(lib, op))
  {
    match op
    case RegisterCopyOp(c, b) => NewCopyAgrees(lib, c, b);
    case BorrowOp(role, m, c, f, id, now) =>
      BorrowAgrees(lib, role, m, c, f, id, now);
      BorrowLogs(lib, role, m, c, f, id, now);
    case ReserveOp(m, b, cf, sf, id, now) => ReserveIsNoLoan(lib, m, b, cf, sf, id, now);
    case ReturnOp(l, f, id, now) =>
      ReturnAgrees(lib, l, f, id, now);
      ReturnLogs(lib, l, f, id, now);
    case _ => SameLoansAgree(lib, Perform(lib, op));
  }

  lemma {:induction false} RunSound(lib: Library, ops: seq<Op>)
    requires Sound(lib) && CanPerform(lib, ops)
    ensures Sound(After(lib, ops))
    decreases |ops|
  {
    if ops != [] {
      PerformSound(lib, ops[0]);
      RunSound(Perform(lib, ops[0]), ops[1..]);
    }
  }

  /** Loan/copy agreement: after every sequential run with the saga attached, whatever
      failed, a copy none of whose Mark calls returned an error is available with no open
      loan or unavailable with exactly one; the persisted loans are the announced ones;
      LoanReturned names only closed loans. */
  lemma LoansAndCopiesAgree(ops: seq<Op>)
    requires CanPerform(EMPTY, ops)
    ensures var lib := After(EMPTY, ops);
            && (forall c | c in lib.w.copies && c !in lib.tainted :: StatusFits(lib.w.loans, c, lib.w.copies[c].status))
            && LogFits(lib.w.loans, lib.w.log)
  {
    RunSound(EMPTY, ops);
  }
}
