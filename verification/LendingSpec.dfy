/** What each lending operation does to the library, as a function of the state before it
    and of the faults that strike it. The facade's methods are proved against these. */
module LendingSpec {
  import opened Domain
  import opened ReservationQueue

  datatype Result<+T, +E> = Ok(value: T) | Err(error: E)

  /** The tables and the log, and a history: the copies one of whose Mark calls returned an
      error. */
  datatype Library = Library(w: World, tainted: set<CopyId>, subscribed: bool)

  /** Which of the calls a borrow makes fail. */
  datatype BorrowFaults = BorrowFaults(
    eligibility: bool, findCopy: bool, saveLoan: bool, markFind: bool, markSave: bool)

  /** Which of the calls the consumer makes fail; eligibility checks fail by reservation. */
  datatype HandlerFaults = HandlerFaults(
    list: bool, eligibility: set<ReservationId>, claim: bool, borrow: BorrowFaults, unfulfil: bool)

  datatype ReturnFaults = ReturnFaults(find: bool, save: bool, markFind: bool, markSave: bool, handler: HandlerFaults)

  datatype ReturnError = LoanLookupFailed | LoanNotFound | LoanCommitFailed | MarkAvailableFailed

  datatype ReserveError = ReserverLookupFailed | ReserverIneligible | ReservationSaveFailed

  function Publish(lib: Library, e: Event): Library {
    lib.(w := lib.w.(log := lib.w.log + [e]))
  }

  function PutLoan(lib: Library, loan: Loan): Library {
    lib.(w := lib.w.(loans := lib.w.loans[loan.id := loan]))
  }

  function PutReservation(lib: Library, r: Reservation): Library {
    lib.(w := lib.w.(reservations := lib.w.reservations[r.id := r]))
  }

  /** catalog.updateCopyStatus: load, flip, save back. A failing call taints the copy. */
  function Mark(lib: Library, copyId: CopyId, status: CopyStatus, findFault: bool, saveFault: bool): (Library, bool) {
    if findFault || copyId !in lib.w.copies || saveFault then (lib.(tainted := lib.tainted + {copyId}), false)
    else (lib.(w := lib.w.(copies := lib.w.copies[copyId := lib.w.copies[copyId].(status := status)])), true)
  }

  /** The checks a borrow makes before it writes anything. */
  function BorrowChecks(w: World, role: Role, member: MemberId, copyId: CopyId, f: BorrowFaults)
    : Result<Copy, BorrowError>
  {
    if !role.RoleMember? then Err(UnauthorizedRole)
    else
      match CheckEligibility(w.members, member, f.eligibility)
      case LookupFailed => Err(MemberLookupFailed)
      case Ineligible => Err(MemberIneligible)
      case Eligible =>
        if f.findCopy || copyId !in w.copies then Err(CopyLookupFailed)
        else if w.copies[copyId].status != Available then Err(CopyUnavailable)
        else Ok(w.copies[copyId])
  }

  function Borrow(lib: Library, role: Role, member: MemberId, copyId: CopyId, f: BorrowFaults, id: LoanId, now: int)
    : (Library, Result<Loan, BorrowError>)
  {
    match BorrowChecks(lib.w, role, member, copyId, f)
    case Err(e) => (lib, Err(e))
    case Ok(copy) =>
      if f.saveLoan then (lib, Err(LoanSaveFailed))
      else
        var loan := BuildLoan(id, member, copy, now);
        var committed := Publish(PutLoan(lib, loan), LoanOpenedEvent(loan));
        var (marked, ok) := Mark(committed, copyId, Unavailable, f.markFind, f.markSave);
        (marked, if ok then Ok(loan) else Err(MarkUnavailableFailed))
  }

  /** The first reservation of the queue whose eligibility check succeeds as eligible. */
  function FirstEligible(members: map<MemberId, MembershipStatus>, q: seq<Reservation>, faulty: set<ReservationId>)
    : Option<Reservation>
  {
    if q == [] then None
    else if CheckEligibility(members, q[0].member, q[0].id in faulty).Eligible? then Some(q[0])
    else FirstEligible(members, q[1..], faulty)
  }

  function TryUnfulfil(lib: Library, claim: Reservation, fault: bool, now: int): Library {
    if fault then lib
    else Publish(PutReservation(lib, claim.(fulfilledAt := None)),
                 ReservationUnfulfilled(claim.id, claim.member, claim.book, now))
  }

  /** attemptAutoLoan: claim, borrow outside the claim's transaction, then announce the
      outcome, un-fulfilling first when the borrow was refused. */
  function Attempt(lib: Library, r: Reservation, copyId: CopyId, f: HandlerFaults, id: LoanId, now: int): Library {
    if f.claim then lib
    else
      var claim := r.(fulfilledAt := Some(now));
      var claimed := Publish(PutReservation(lib, claim), ReservationFulfilled(claim.id, claim.member, claim.book, now));
      var (after, result) := Borrow(claimed, RoleMember, claim.member, copyId, f.borrow, id, now);
      match result
      case Ok(loan) => Publish(after, AutoLoanOpened(loan.book, loan.id, loan.member, claim.id, now))
      case Err(e) =>
        Publish(TryUnfulfil(after, claim, f.unfulfil, now), AutoLoanFailed(claim.book, claim.id, claim.member, e, now))
  }

  ghost function ProcessReturn(lib: Library, book: BookId, copyId: CopyId, f: HandlerFaults, id: LoanId, now: int)
    : Library
    requires WellKeyed(lib.w)
  {
    if f.list then lib
    else
      match FirstEligible(lib.w.members, PendingQueue(lib.w.reservations, book), f.eligibility)
      case None => lib
      case Some(r) => Attempt(lib, r, copyId, f, id, now)
  }

  ghost function ReturnLoan(lib: Library, loanId: LoanId, f: ReturnFaults, id: LoanId, now: int)
    : (Library, Result<Loan, ReturnError>)
    requires WellKeyed(lib.w)
  {
    if f.find then (lib, Err(LoanLookupFailed))
    else if loanId !in lib.w.loans then (lib, Err(LoanNotFound))
    else if f.save then (lib, Err(LoanCommitFailed))
    else
      var closed := lib.w.loans[loanId].(returnedAt := Some(now));
      var (marked, ok) := Mark(PutLoan(lib, closed), closed.copyId, Available, f.markFind, f.markSave);
      if !ok then (marked, Err(MarkAvailableFailed))
      else
        var announced := Publish(marked, LoanReturnedEvent(closed, now));
        (if lib.subscribed then ProcessReturn(announced, closed.book, closed.copyId, f.handler, id, now) else announced,
         Ok(closed))
  }

  function Reserve(
    lib: Library, member: MemberId, book: BookId, checkFault: bool, saveFault: bool, id: ReservationId, now: int)
    : (Library, Result<Reservation, ReserveError>)
  {
    match CheckEligibility(lib.w.members, member, checkFault)
    case LookupFailed => (lib, Err(ReserverLookupFailed))
    case Ineligible => (lib, Err(ReserverIneligible))
    case Eligible =>
      if saveFault then (lib, Err(ReservationSaveFailed))
      else
        var r := Reservation(id, member, book, now, None);
        (Publish(PutReservation(lib, r), ReservationQueuedEvent(r)), Ok(r))
  }

  function SetStatus(lib: Library, member: MemberId, status: MembershipStatus, fault: bool): (Library, bool) {
    if fault || member !in lib.w.members then (lib, false)
    else (lib.(w := lib.w.(members := lib.w.members[member := status])), true)
  }
}
