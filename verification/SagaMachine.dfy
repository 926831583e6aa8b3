/** The lending facade and the auto-loan consumer as an interleaved step machine.

    A thread runs one facade call. Its program counter names the next access to shared
    state; everything between two accesses is local. A repository write and the bus
    publication of the event staged beside it are separate steps, because another thread
    can run between the commit and the publication. Every access that can fail takes its
    failure from the step's Choice, so a run covers every pattern of faults.

    The in-memory bus delivers synchronously: publishing LoanReturned continues in the
    consumer's handler on the same thread when the consumer is subscribed. */
module SagaMachine {
  import opened Domain
  import opened ReservationQueue

  type Tid = nat

  /** A handler invocation: the returned loan of the event and the book's mutex. */
  datatype Job = Job(loan: Loan, mutex: nat)

  datatype Caller = Client | Saga(job: Job, claim: Reservation)

  /** What a finished thread did; kept only so that theorems can speak about it. */
  datatype Outcome = Ended | NoAutoLoan | AutoLoan(claim: Reservation, loanId: LoanId)

  datatype ReturnStep =
    | Find(loanId: LoanId)
    | CloseLoan(loan: Loan)
    | FindReturned(loan: Loan)
    | MarkAvailable(loan: Loan, copy: Copy)
    | AnnounceReturned(loan: Loan)

  datatype HandlerStep =
    | List
    | Walk(queue: seq<Reservation>)
    | Claim(next: Reservation)
    | Claimed(claim: Reservation)
    | Succeeded(claim: Reservation, lent: Loan)
    | Unfulfil(claim: Reservation, error: BorrowError)
    | Unfulfilled(claim: Reservation, error: BorrowError)
    | Failed(claim: Reservation, error: BorrowError, restored: bool)
    | Unlock(outcome: Outcome)

  datatype BorrowStep =
    | Authorize(role: Role, member: MemberId, copyId: CopyId)
    | Qualify(member: MemberId, copyId: CopyId)
    | FindCopy(member: MemberId, copyId: CopyId)
    | OpenLoan(member: MemberId, copy: Copy)
    | AnnounceOpened(lent: Loan)
    | FindLent(lent: Loan)
    | MarkUnavailable(lent: Loan, copy: Copy)

  datatype ReserveStep =
    | QualifyReserver(member: MemberId, book: BookId)
    | Enqueue(member: MemberId, book: BookId)
    | AnnounceQueued(queued: Reservation)

  datatype Pc =
    | Returning(r: ReturnStep)
    | Allocate(loan: Loan)
    | Allocated(loan: Loan)
    | AwaitLock(job: Job)
    | Handling(job: Job, h: HandlerStep)
    | Borrowing(caller: Caller, b: BorrowStep)
    | Reserving(q: ReserveStep)
    | LifecycleLock(start: bool)
    | LifecycleAct(start: bool)
    | LifecycleUnlock
    | ChangeStatus(member: MemberId, status: MembershipStatus)
    | Done(outcome: Outcome)

  /** errors is the consumer's error log, restricted to the records of its "unfulfil"
      step. held maps a locked book mutex to the thread holding it. */
  datatype State = State(
    w: World,
    errors: seq<ReservationId>,
    threads: seq<Pc>,
    bookLocks: map<BookId, nat>,
    held: map<nat, Tid>,
    allocHolder: Option<Tid>,
    lifecycleHolder: Option<Tid>,
    subscribed: bool)

  /** What the environment decides at a step: whether the access fails, a fresh
      identifier, and the clock. */
  datatype Choice = Choice(fault: bool, id: nat, now: int)

  predicate IsCall(pc: Pc) {
    || (pc.Returning? && pc.r.Find?)
    || (pc.Borrowing? && pc.caller.Client? && pc.b.Authorize?)
    || (pc.Reserving? && pc.q.QualifyReserver?)
    || pc.LifecycleLock?
    || pc.ChangeStatus?
  }

  /** Any finite set of calls over any tables, with nothing fulfilled or published yet. */
  ghost predicate Init(s: State) {
    && WellKeyed(s.w)
    && s.w.log == [] && s.errors == []
    && (forall k | k in s.w.reservations :: s.w.reservations[k].fulfilledAt.None?)
    && (forall t | 0 <= t < |s.threads| :: IsCall(s.threads[t]))
    && s.bookLocks == map[] && s.held == map[]
    && s.allocHolder.None? && s.lifecycleHolder.None?
  }

  predicate Fresh(w: World, c: Choice) {
    c.id !in w.loans && c.id !in w.reservations
  }

  predicate Enabled(s: State, t: Tid) {
    && t < |s.threads|
    && match s.threads[t]
       case Allocate(_) => s.allocHolder.None?
       case AwaitLock(job) => job.mutex !in s.held
       case LifecycleLock(_) => s.lifecycleHolder.None?
       case Done(_) => false
       case _ => true
  }

  /** What one access does to shared state. */
  datatype Effect =
    | Nothing
    | PutMember(member: MemberId, status: MembershipStatus)
    | PutCopy(copy: Copy)
    | PutLoan(loan: Loan)
    | PutReservation(reservation: Reservation)
    | Emit(event: Event)
    | LogUnfulfilError(reservationId: ReservationId)
    | TakeAllocLock
    | AllocateAndFree(book: BookId)
    | TakeBookLock(mutex: nat)
    | FreeBookLock(mutex: nat)
    | TakeLifecycleLock
    | SetSubscribed(on: bool)
    | FreeLifecycleLock

  function LocksWith(bookLocks: map<BookId, nat>, book: BookId): map<BookId, nat> {
    if book in bookLocks then bookLocks else bookLocks[book := |bookLocks|]
  }

  function Apply(s: State, t: Tid, e: Effect): State {
    match e
    case Nothing => s
    case PutMember(member, status) => s.(w := s.w.(members := s.w.members[member := status]))
    case PutCopy(copy) => s.(w := s.w.(copies := s.w.copies[copy.id := copy]))
    case PutLoan(loan) => s.(w := s.w.(loans := s.w.loans[loan.id := loan]))
    case PutReservation(r) => s.(w := s.w.(reservations := s.w.reservations[r.id := r]))
    case Emit(event) => s.(w := s.w.(log := s.w.log + [event]))
    case LogUnfulfilError(id) => s.(errors := s.errors + [id])
    case TakeAllocLock => s.(allocHolder := Some(t))
    case AllocateAndFree(book) => s.(allocHolder := None, bookLocks := LocksWith(s.bookLocks, book))
    case TakeBookLock(mutex) => s.(held := s.held[mutex := t])
    case FreeBookLock(mutex) => s.(held := s.held - {mutex})
    case TakeLifecycleLock => s.(lifecycleHolder := Some(t))
    case SetSubscribed(on) => s.(subscribed := on)
    case FreeLifecycleLock => s.(lifecycleHolder := None)
  }

  function Instant(at: Option<int>): int {
    match at case Some(t) => t case None => 0
  }

  function ReturnMove(w: World, subscribed: bool, r: ReturnStep, c: Choice): (Effect, Pc) {
    match r
    case Find(loanId) =>
      (Nothing, if c.fault || loanId !in w.loans then Done(Ended) else Returning(CloseLoan(w.loans[loanId])))
    case CloseLoan(loan) =>
      var closed := loan.(returnedAt := Some(c.now));
      if c.fault then (Nothing, Done(Ended)) else (PutLoan(closed), Returning(FindReturned(closed)))
    case FindReturned(loan) =>
      (Nothing, if c.fault || loan.copyId !in w.copies then Done(Ended)
                else Returning(MarkAvailable(loan, w.copies[loan.copyId])))
    case MarkAvailable(loan, copy) =>
      if c.fault then (Nothing, Done(Ended))
      else (PutCopy(copy.(status := Available)), Returning(AnnounceReturned(loan)))
    case AnnounceReturned(loan) =>
      (Emit(LoanReturnedEvent(loan, Instant(loan.returnedAt))),
       if subscribed then Allocate(loan) else Done(Ended))
  }

  /** The consumer inside its per-book critical section. */
  ghost function HandlerMove(w: World, job: Job, h: HandlerStep, c: Choice): (Effect, Pc)
    requires WellKeyed(w)
  {
    match h
    case List =>
      (Nothing, Handling(job, if c.fault then Unlock(Ended) else Walk(PendingQueue(w.reservations, job.loan.book))))
    case Walk(queue) =>
      (Nothing, Handling(job,
        if queue == [] then Unlock(NoAutoLoan)
        else if CheckEligibility(w.members, queue[0].member, c.fault).Eligible? then Claim(queue[0])
        else Walk(queue[1..])))
    case Claim(next) =>
      var claim := next.(fulfilledAt := Some(c.now));
      if c.fault then (Nothing, Handling(job, Unlock(Ended)))
      else (PutReservation(claim), Handling(job, Claimed(claim)))
    case Claimed(claim) =>
      (Emit(ReservationFulfilled(claim.id, claim.member, claim.book, Instant(claim.fulfilledAt))),
       Borrowing(Saga(job, claim), Authorize(RoleMember, claim.member, job.loan.copyId)))
    case Succeeded(claim, lent) =>
      (Emit(AutoLoanOpened(lent.book, lent.id, lent.member, claim.id, c.now)),
       Handling(job, Unlock(AutoLoan(claim, lent.id))))
    case Unfulfil(claim, error) =>
      if c.fault then (LogUnfulfilError(claim.id), Handling(job, Failed(claim, error, false)))
      else (PutReservation(claim.(fulfilledAt := None)), Handling(job, Unfulfilled(claim, error)))
    case Unfulfilled(claim, error) =>
      (Emit(ReservationUnfulfilled(claim.id, claim.member, claim.book, c.now)),
       Handling(job, Failed(claim, error, true)))
    case Failed(claim, error, restored) =>
      (Emit(AutoLoanFailed(claim.book, claim.id, claim.member, error, c.now)), Handling(job, Unlock(Ended)))
    case Unlock(outcome) => (FreeBookLock(job.mutex), Done(outcome))
  }

  function Refused(caller: Caller, error: BorrowError): Pc {
    match caller
    case Client => Done(Ended)
    case Saga(job, claim) => Handling(job, Unfulfil(claim, error))
  }

  /** Borrow, called by a client or by the saga on behalf of a reserver. */
  function BorrowMove(w: World, caller: Caller, b: BorrowStep, c: Choice): (Effect, Pc) {
    match b
    case Authorize(role, member, copyId) =>
      (Nothing, if role.RoleMember? then Borrowing(caller, Qualify(member, copyId))
                else Refused(caller, UnauthorizedRole))
    case Qualify(member, copyId) =>
      (Nothing, match CheckEligibility(w.members, member, c.fault)
                case LookupFailed => Refused(caller, MemberLookupFailed)
                case Ineligible => Refused(caller, MemberIneligible)
                case Eligible => Borrowing(caller, FindCopy(member, copyId)))
    case FindCopy(member, copyId) =>
      (Nothing, if c.fault || copyId !in w.copies then Refused(caller, CopyLookupFailed)
                else if w.copies[copyId].status != Available then Refused(caller, CopyUnavailable)
                else Borrowing(caller, OpenLoan(member, w.copies[copyId])))
    case OpenLoan(member, copy) =>
      var loan := BuildLoan(c.id, member, copy, c.now);
      if c.fault then (Nothing, Refused(caller, LoanSaveFailed))
      else (PutLoan(loan), Borrowing(caller, AnnounceOpened(loan)))
    case AnnounceOpened(lent) => (Emit(LoanOpenedEvent(lent)), Borrowing(caller, FindLent(lent)))
    case FindLent(lent) =>
      (Nothing, if c.fault || lent.copyId !in w.copies then Refused(caller, MarkUnavailableFailed)
                else Borrowing(caller, MarkUnavailable(lent, w.copies[lent.copyId])))
    case MarkUnavailable(lent, copy) =>
      if c.fault then (Nothing, Refused(caller, MarkUnavailableFailed))
      else (PutCopy(copy.(status := Unavailable)),
            match caller
            case Client => Done(Ended)
            case Saga(job, claim) => Handling(job, Succeeded(claim, lent)))
  }

  function ReserveMove(w: World, q: ReserveStep, c: Choice): (Effect, Pc) {
    match q
    case QualifyReserver(member, book) =>
      (Nothing, if CheckEligibility(w.members, member, c.fault).Eligible? then Reserving(Enqueue(member, book))
                else Done(Ended))
    case Enqueue(member, book) =>
      var r := Reservation(c.id, member, book, c.now, None);
      if c.fault then (Nothing, Done(Ended)) else (PutReservation(r), Reserving(AnnounceQueued(r)))
    case AnnounceQueued(queued) => (Emit(ReservationQueuedEvent(queued)), Done(Ended))
  }

  /** The access thread t performs next, and where it continues. */
  ghost function Move(s: State, t: Tid, c: Choice): (Effect, Pc)
    requires Enabled(s, t) && WellKeyed(s.w)
  {
    match s.threads[t]
    case Returning(r) => ReturnMove(s.w, s.subscribed, r, c)
    case Allocate(loan) => (TakeAllocLock, Allocated(loan))
    case Allocated(loan) =>
      (AllocateAndFree(loan.book), AwaitLock(Job(loan, LocksWith(s.bookLocks, loan.book)[loan.book])))
    case AwaitLock(job) => (TakeBookLock(job.mutex), Handling(job, List))
    case Handling(job, h) => HandlerMove(s.w, job, h, c)
    case Borrowing(caller, b) => BorrowMove(s.w, caller, b, c)
    case Reserving(q) => ReserveMove(s.w, q, c)
    case LifecycleLock(start) => (TakeLifecycleLock, LifecycleAct(start))
    case LifecycleAct(start) => (SetSubscribed(start), LifecycleUnlock)
    case LifecycleUnlock => (FreeLifecycleLock, Done(Ended))
    case ChangeStatus(member, status) =>
      (if c.fault || member !in s.w.members then Nothing else PutMember(member, status), Done(Ended))
  }

  /** s' is s after thread t performs e and continues at next. */
  function Continue(s: State, t: Tid, e: Effect, next: Pc): State
    requires t < |s.threads|
  {
    Apply(s, t, e).(threads := s.threads[t := next])
  }

  ghost function Step(s: State, t: Tid, c: Choice): State
    requires Enabled(s, t) && WellKeyed(s.w)
  {
    var (effect, next) := Move(s, t, c);
    Continue(s, t, effect, next)
  }

  /** The handler invocation whose critical section a thread is in. */
  function JobOf(pc: Pc): Option<Job> {
    match pc
    case Handling(job, _) => Some(job)
    case Borrowing(Saga(job, _), _) => Some(job)
    case _ => None
  }

  lemma ApplyKeepsKeys(s: State, t: Tid, e: Effect)
    requires WellKeyed(s.w)
    ensures WellKeyed(Apply(s, t, e).w)
  {
  }

  lemma StepKeepsKeys(s: State, t: Tid, c: Choice)
    requires Enabled(s, t) && WellKeyed(s.w)
    ensures WellKeyed(Step(s, t, c).w)
  {
    ApplyKeepsKeys(s, t, Move(s, t, c).0);
  }

  /** A schedule: which thread moves next, and what the environment decides. */
  type Schedule = seq<(Tid, Choice)>

  ghost predicate CanRun(s: State, run: Schedule)
    requires WellKeyed(s.w)
    decreases |run|
  {
    run == [] ||
    (Enabled(s, run[0].0) && Fresh(s.w, run[0].1) &&
     (StepKeepsKeys(s, run[0].0, run[0].1); CanRun(Step(s, run[0].0, run[0].1), run[1..])))
  }

  ghost function Run(s: State, run: Schedule): (final: State)
    requires WellKeyed(s.w) && CanRun(s, run)
    ensures WellKeyed(final.w)
    decreases |run|
  {
    if run == [] then s
    else
      StepKeepsKeys(s, run[0].0, run[0].1);
      Run(Step(s, run[0].0, run[0].1), run[1..])
  }
}
