/** The values every module of the library service exchanges: identifiers, persisted
    records and domain events.

    Identifiers are numbers. The service mints them as random strings and uses only
    their equality and, for tie-breaking in listings, their total order. Instants are
    integer nanoseconds. */
module Domain {

  datatype Option<+T> = None | Some(value: T)

  type MemberId = nat
  type BookId = nat
  type CopyId = nat
  type LoanId = nat
  type ReservationId = nat

  datatype Role = RoleMember | RoleAccount | RoleStaff

  datatype MembershipStatus = Active | Suspended

  datatype CopyStatus = Available | Unavailable

  datatype Copy = Copy(id: CopyId, book: BookId, status: CopyStatus)

  datatype Loan = Loan(
    id: LoanId, member: MemberId, copyId: CopyId, book: BookId,
    borrowedAt: int, dueDate: int, returnedAt: Option<int>)

  datatype Reservation = Reservation(
    id: ReservationId, member: MemberId, book: BookId,
    reservedAt: int, fulfilledAt: Option<int>)

  /** Why a borrow was refused. The eligibility lookup fails both on an infrastructure
      error and on an unknown member. */
  datatype BorrowError =
    | UnauthorizedRole
    | MemberLookupFailed
    | MemberIneligible
    | CopyLookupFailed
    | CopyUnavailable
    | LoanSaveFailed
    | MarkUnavailableFailed

  datatype Event =
    | LoanOpened(loanId: LoanId, member: MemberId, copyId: CopyId, book: BookId, borrowedAt: int, dueDate: int)
    | LoanReturned(loanId: LoanId, member: MemberId, copyId: CopyId, book: BookId, returnedAt: int)
    | ReservationQueued(reservationId: ReservationId, member: MemberId, book: BookId, reservedAt: int)
    | ReservationFulfilled(reservationId: ReservationId, member: MemberId, book: BookId, at: int)
    | ReservationUnfulfilled(reservationId: ReservationId, member: MemberId, book: BookId, at: int)
    | AutoLoanOpened(book: BookId, loanId: LoanId, member: MemberId, reservationId: ReservationId, at: int)
    | AutoLoanFailed(book: BookId, reservationId: ReservationId, member: MemberId, reason: BorrowError, at: int)

  /** Everything the lending flows read and write, with the append-only log of what was
      published on the bus. */
  datatype World = World(
    members: map<MemberId, MembershipStatus>,
    copies: map<CopyId, Copy>,
    loans: map<LoanId, Loan>,
    reservations: map<ReservationId, Reservation>,
    log: seq<Event>)

  datatype Eligibility = LookupFailed | Ineligible | Eligible

  /** membership.CheckEligibility: an infrastructure fault or an unknown member is an
      error, a suspended member is ineligible, everyone else may borrow. */
  function CheckEligibility(members: map<MemberId, MembershipStatus>, member: MemberId, fault: bool): Eligibility {
    if fault || member !in members then LookupFailed
    else if members[member].Suspended? then Ineligible
    else Eligible
  }

  const NANOS_PER_DAY: int := 24 * 60 * 60 * 1_000_000_000
  const LOAN_DURATION_DAYS: int := 14

  function BuildLoan(id: LoanId, member: MemberId, copy: Copy, now: int): Loan {
    Loan(id, member, copy.id, copy.book, now, now + LOAN_DURATION_DAYS * NANOS_PER_DAY, None)
  }

  predicate Open(loan: Loan) { loan.returnedAt.None? }

  function LoanOpenedEvent(loan: Loan): Event {
    LoanOpened(loan.id, loan.member, loan.copyId, loan.book, loan.borrowedAt, loan.dueDate)
  }

  function LoanReturnedEvent(loan: Loan, returnedAt: int): Event {
    LoanReturned(loan.id, loan.member, loan.copyId, loan.book, returnedAt)
  }

  function ReservationQueuedEvent(r: Reservation): Event {
    ReservationQueued(r.id, r.member, r.book, r.reservedAt)
  }

  /** The loans the log has announced. */
  function OpenedIds(log: seq<Event>): set<LoanId> {
    set e | e in log && e.LoanOpened? :: e.loanId
  }

  /** Tables are keyed by the identifier of the record they hold. */
  ghost predicate WellKeyed(w: World) {
    && (forall k | k in w.copies :: w.copies[k].id == k)
    && (forall k | k in w.loans :: w.loans[k].id == k)
    && (forall k | k in w.reservations :: w.reservations[k].id == k)
  }
}
