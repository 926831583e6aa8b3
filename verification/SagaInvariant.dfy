/** What every interleaving of the saga keeps, under every pattern of faults: one handler
    at a time works on a reservation, and the reservation table and the event log never
    disagree by more than the event a thread is about to publish. */
module SagaInvariant {
  import opened Domain
  import opened ReservationQueue
  import opened SagaMachine

  // ---------------------------------------------------------------- the book mutexes

  /** The handler invocation that knows its book's mutex, waiting for it or holding it. */
  function MutexUser(pc: Pc): Option<Job> {
    match pc
    case AwaitLock(job) => Some(job)
    case _ => JobOf(pc)
  }

  /** No two books share a mutex. */
  ghost predicate Unshared(bookLocks: map<BookId, nat>) {
    && (forall b | b in bookLocks :: bookLocks[b] < |bookLocks|)
    && (forall a, b | a in bookLocks && b in bookLocks && bookLocks[a] == bookLocks[b] :: a == b)
  }

  /** Every handler of a book uses the book's one mutex. */
  ghost predicate Mutexes(threads: seq<Pc>, bookLocks: map<BookId, nat>) {
    forall t | 0 <= t < |threads| && MutexUser(threads[t]).Some? ::
      var job := MutexUser(threads[t]).value;
      job.loan.book in bookLocks && bookLocks[job.loan.book] == job.mutex
  }

  /** A mutex is held exactly by the thread inside the critical section. */
  ghost predicate Holders(threads: seq<Pc>, held: map<nat, Tid>) {
    && (forall t | 0 <= t < |threads| && JobOf(threads[t]).Some? ::
          JobOf(threads[t]).value.mutex in held && held[JobOf(threads[t]).value.mutex] == t)
    && (forall m | m in held ::
          held[m] < |threads| && JobOf(threads[held[m]]).Some? && JobOf(threads[held[m]]).value.mutex == m)
  }

  /** The two short locks are held by threads about to release them. */
  ghost predicate ShortLocks(s: State) {
    && (s.allocHolder.Some? ==> s.allocHolder.value < |s.threads| && s.threads[s.allocHolder.value].Allocated?)
    && (s.lifecycleHolder.Some? ==>
          s.lifecycleHolder.value < |s.threads| &&
          (s.threads[s.lifecycleHolder.value].LifecycleAct? || s.threads[s.lifecycleHolder.value].LifecycleUnlock?))
  }

  ghost predicate Locks(s: State) {
    Unshared(s.bookLocks) && Mutexes(s.threads, s.bookLocks) && Holders(s.threads, s.held) && ShortLocks(s)
  }

  /** How a move of one thread treats the locks. */
  ghost predicate LockMove(s: State, pc: Pc, e: Effect, next: Pc) {
    match pc
    case Allocate(loan) => e.TakeAllocLock? && next.Allocated?
    case Allocated(loan) =>
      e == AllocateAndFree(loan.book) &&
      next == AwaitLock(Job(loan, LocksWith(s.bookLocks, loan.book)[loan.book]))
    case AwaitLock(job) => e == TakeBookLock(job.mutex) && next == Handling(job, List)
    case LifecycleLock(_) => e.TakeLifecycleLock? && next.LifecycleAct?
    case LifecycleAct(_) => e.SetSubscribed? && next.LifecycleUnlock?
    case LifecycleUnlock => e.FreeLifecycleLock? && next.Done?
    case Handling(job, Unlock(_)) => e == FreeBookLock(job.mutex) && next.Done?
    case _ =>
      && LockFree(e)
      && JobOf(next) == JobOf(pc)
      && !next.AwaitLock?
  }

  predicate LockFree(e: Effect) {
    e.Nothing? || e.PutMember? || e.PutCopy? || e.PutLoan? || e.PutReservation? || e.Emit? || e.LogUnfulfilError?
  }

  lemma MoveTreatsLocks(s: State, t: Tid, c: Choice)
    requires Enabled(s, t) && WellKeyed(s.w)
    ensures LockMove(s, s.threads[t], Move(s, t, c).0, Move(s, t, c).1)
  {
    if s.threads[t].Handling? {
      HandlerTreatsLocks(s, t, c);
    } else if s.threads[t].Borrowing? {
      BorrowTreatsLocks(s, t, c);
    }
  }

  lemma HandlerTreatsLocks(s: State, t: Tid, c: Choice)
    requires Enabled(s, t) && WellKeyed(s.w) && s.threads[t].Handling?
    ensures LockMove(s, s.threads[t], Move(s, t, c).0, Move(s, t, c).1)
  {
  }

  lemma BorrowTreatsLocks(s: State, t: Tid, c: Choice)
    requires Enabled(s, t) && WellKeyed(s.w) && s.threads[t].Borrowing?
    ensures LockMove(s, s.threads[t], Move(s, t, c).0, Move(s, t, c).1)
  {
  }

  lemma MutexesKept(threads: seq<Pc>, bookLocks: map<BookId, nat>, t: Tid, next: Pc)
    requires t < |threads| && Mutexes(threads, bookLocks)
    requires MutexUser(next).None? || MutexUser(next) == MutexUser(threads[t])
    ensures Mutexes(threads[t := next], bookLocks)
  {
  }

  lemma MutexAllocated(threads: seq<Pc>, bookLocks: map<BookId, nat>, t: Tid, loan: Loan)
    requires t < |threads| && Mutexes(threads, bookLocks)
    ensures var locks := LocksWith(bookLocks, loan.book);
            Mutexes(threads[t := AwaitLock(Job(loan, locks[loan.book]))], locks)
  {
  }

  lemma LocksStayUnshared(bookLocks: map<BookId, nat>, book: BookId)
    requires Unshared(bookLocks)
    ensures Unshared(LocksWith(bookLocks, book))
  {
  }

  lemma HoldersKept(threads: seq<Pc>, held: map<nat, Tid>, t: Tid, next: Pc)
    requires t < |threads| && Holders(threads, held) && JobOf(next) == JobOf(threads[t])
    ensures Holders(threads[t := next], held)
  {
  }

  lemma HolderEnters(threads: seq<Pc>, held: map<nat, Tid>, t: Tid, next: Pc)
    requires t < |threads| && Holders(threads, held)
    requires JobOf(threads[t]).None? && JobOf(next).Some? && JobOf(next).value.mutex !in held
    ensures Holders(threads[t := next], held[JobOf(next).value.mutex := t])
  {
  }

  lemma HolderLeaves(threads: seq<Pc>, held: map<nat, Tid>, t: Tid, next: Pc)
    requires t < |threads| && Holders(threads, held)
    requires JobOf(threads[t]).Some? && JobOf(next).None?
    ensures Holders(threads[t := next], held - {JobOf(threads[t]).value.mutex})
  {
  }

  lemma ShortLocksKept(s: State, t: Tid, e: Effect, next: Pc)
    requires Enabled(s, t) && ShortLocks(s) && LockMove(s, s.threads[t], e, next)
    ensures ShortLocks(Continue(s, t, e, next))
  {
  }

  lemma ApplyTreatsLocks(s: State, t: Tid, e: Effect)
    ensures Apply(s, t, e).threads == s.threads
    ensures Apply(s, t, e).bookLocks == if e.AllocateAndFree? then LocksWith(s.bookLocks, e.book) else s.bookLocks
    ensures Apply(s, t, e).held ==
      if e.TakeBookLock? then s.held[e.mutex := t] else if e.FreeBookLock? then s.held - {e.mutex} else s.held
  {
  }

  lemma MutexesKeptBy(s: State, t: Tid, e: Effect, next: Pc)
    requires t < |s.threads| && Mutexes(s.threads, s.bookLocks) && LockMove(s, s.threads[t], e, next)
    ensures var s' := Continue(s, t, e, next); Mutexes(s'.threads, s'.bookLocks)
  {
    ApplyTreatsLocks(s, t, e);
    var s' := Continue(s, t, e, next);
    if s.threads[t].Allocated? {
      var loan := s.threads[t].loan;
      MutexAllocated(s.threads, s.bookLocks, t, loan);
      assert s'.bookLocks == LocksWith(s.bookLocks, loan.book);
    } else {
      MutexesKept(s.threads, s.bookLocks, t, next);
      assert s'.bookLocks == s.bookLocks;
    }
  }

  lemma HoldersKeptBy(s: State, t: Tid, e: Effect, next: Pc)
    requires Enabled(s, t) && Holders(s.threads, s.held) && LockMove(s, s.threads[t], e, next)
    ensures var s' := Continue(s, t, e, next); Holders(s'.threads, s'.held)
  {
    ApplyTreatsLocks(s, t, e);
    if s.threads[t].AwaitLock? {
      HolderEnters(s.threads, s.held, t, next);
    } else if e.FreeBookLock? {
      HolderLeaves(s.threads, s.held, t, next);
    } else {
      HoldersKept(s.threads, s.held, t, next);
    }
  }

  lemma LocksKept(s: State, t: Tid, c: Choice)
    requires Enabled(s, t) && WellKeyed(s.w) && Locks(s)
    ensures Locks(Step(s, t, c))
  {
    MoveTreatsLocks(s, t, c);
    var (e, next) := Move(s, t, c);
    ShortLocksKept(s, t, e, next);
    ApplyTreatsLocks(s, t, e);
    LocksStayUnshared(s.bookLocks, if e.AllocateAndFree? then e.book else 0);
    MutexesKeptBy(s, t, e, next);
    HoldersKeptBy(s, t, e, next);
  }

  /** Two handlers inside their critical sections work on different books. */
  lemma HandlersExclude(s: State, t: Tid, u: Tid)
    requires Locks(s) && t < |s.threads| && u < |s.threads|
    requires JobOf(s.threads[t]).Some? && JobOf(s.threads[u]).Some?
    requires JobOf(s.threads[t]).value.loan.book == JobOf(s.threads[u]).value.loan.book
    ensures t == u
  {
  }

  /** A handler waiting for its mutex waits only for a handler of the same book. */
  lemma BooksDoNotBlockEachOther(s: State, t: Tid)
    requires Locks(s) && t < |s.threads| && s.threads[t].AwaitLock? && !Enabled(s, t)
    ensures var holder := s.held[s.threads[t].job.mutex];
            holder < |s.threads| && JobOf(s.threads[holder]).Some? &&
            JobOf(s.threads[holder]).value.loan.book == s.threads[t].job.loan.book
  {
  }

  // ---------------------------------------------------------------- what the log says

  /** The events of one reservation, folded: the instant of the last fulfilment not
      undone since, and how often each saga event was published. */
  datatype Ledger = Ledger(at: Option<int>, fulfilled: nat, unfulfilled: nat, loaned: nat, failed: nat)

  function Post(l: Ledger, id: ReservationId, e: Event): Ledger {
    match e
    case ReservationFulfilled(r, _, _, at) =>
      if r == id then l.(at := Some(at), fulfilled := l.fulfilled + 1) else l
    case ReservationUnfulfilled(r, _, _, _) =>
      if r == id then l.(at := None, unfulfilled := l.unfulfilled + 1) else l
    case AutoLoanOpened(_, _, _, r, _) => if r == id then l.(loaned := l.loaned + 1) else l
    case AutoLoanFailed(_, r, _, _, _) => if r == id then l.(failed := l.failed + 1) else l
    case _ => l
  }

  function LedgerOf(log: seq<Event>, id: ReservationId): Ledger {
    if log == [] then Ledger(None, 0, 0, 0, 0)
    else Post(LedgerOf(log[..|log| - 1], id), id, log[|log| - 1])
  }

  function Occurrences(errors: seq<ReservationId>, id: ReservationId): nat {
    if errors == [] then 0
    else Occurrences(errors[..|errors| - 1], id) + if errors[|errors| - 1] == id then 1 else 0
  }

  // ---------------------------------------------------------------- reservation accounts

  /** Everything recorded about one reservation: its row (if any), its ledger, and its
      "unfulfil" error records. */
  datatype Account = Account(row: Option<Option<int>>, ledger: Ledger, stuck: nat)

  function AccountOf(w: World, errors: seq<ReservationId>, id: ReservationId): Account {
    Account(if id in w.reservations then Some(w.reservations[id].fulfilledAt) else None,
            LedgerOf(w.log, id), Occurrences(errors, id))
  }

  /** How far a handler is with the reservation it works on. */
  datatype Stage = Idle | RowClaimed | OnLoanDesk | RowRestored | GivenBack | LeftStuck

  /** The reservation a thread has claimed and not finished with. */
  function ClaimOf(pc: Pc): Option<Reservation> {
    match pc
    case Borrowing(Saga(_, claim), _) => Some(claim)
    case Handling(_, Claimed(claim)) => Some(claim)
    case Handling(_, Succeeded(claim, _)) => Some(claim)
    case Handling(_, Unfulfil(claim, _)) => Some(claim)
    case Handling(_, Unfulfilled(claim, _)) => Some(claim)
    case Handling(_, Failed(claim, _, _)) => Some(claim)
    case _ => None
  }

  function StageOf(pc: Pc): Stage {
    match pc
    case Borrowing(Saga(_, _), _) => OnLoanDesk
    case Handling(_, Claimed(_)) => RowClaimed
    case Handling(_, Succeeded(_, _)) => OnLoanDesk
    case Handling(_, Unfulfil(_, _)) => OnLoanDesk
    case Handling(_, Unfulfilled(_, _)) => RowRestored
    case Handling(_, Failed(_, _, restored)) => if restored then GivenBack else LeftStuck
    case _ => Idle
  }

  /** The row against the ledger at each stage of a handler. At rest: fulfilments exceed
      un-fulfilments by one exactly when the row is fulfilled, at the instant the log
      says; every fulfilment was answered by AutoLoanOpened or AutoLoanFailed; and a
      fulfilled row has either its one loan or its one "unfulfil" error record. */
  predicate Balanced(a: Account, stage: Stage) {
    var l := a.ledger;
    match a.row
    case None => stage.Idle? && l == Ledger(None, 0, 0, 0, 0) && a.stuck == 0
    case Some(at) =>
      match stage
      case Idle =>
        && l.at == at
        && l.fulfilled == l.unfulfilled + (if at.Some? then 1 else 0)
        && l.fulfilled == l.loaned + l.failed
        && l.loaned + a.stuck == (if at.Some? then 1 else 0)
      case RowClaimed =>
        at.Some? && l.at.None? && l.fulfilled == l.unfulfilled == l.failed && l.loaned == a.stuck == 0
      case OnLoanDesk =>
        at.Some? && l.at == at && l.fulfilled == l.unfulfilled + 1 == l.failed + 1 && l.loaned == a.stuck == 0
      case RowRestored =>
        at.None? && l.at.Some? && l.fulfilled == l.unfulfilled + 1 == l.failed + 1 && l.loaned == a.stuck == 0
      case GivenBack =>
        at.None? && l.at.None? && l.fulfilled == l.unfulfilled == l.failed + 1 && l.loaned == a.stuck == 0
      case LeftStuck =>
        at.Some? && l.at == at && l.fulfilled == l.unfulfilled + 1 == l.failed + 1 && l.loaned == 0 && a.stuck == 1
  }

  /** The reservations a handler has listed and not yet passed are pending. */
  ghost predicate KnowsQueue(table: Table, pc: Pc) {
    && (pc.Handling? && pc.h.Walk? ==> forall r | r in pc.h.queue :: IsPending(table, pc.job.loan.book, r))
    && (pc.Handling? && pc.h.Claim? ==> IsPending(table, pc.job.loan.book, pc.h.next))
  }

  /** The row of a claimed reservation is the claim, or the claim undone. */
  predicate KnowsClaim(table: Table, pc: Pc) {
    ClaimOf(pc).Some? ==>
      var claim := ClaimOf(pc).value;
      && claim.fulfilledAt.Some? && claim.book == JobOf(pc).value.loan.book
      && claim.id in table
      && table[claim.id] ==
           if StageOf(pc).RowRestored? || StageOf(pc).GivenBack? then claim.(fulfilledAt := None) else claim
  }

  /** What a thread knows about the reservations it looks at. */
  ghost predicate Informed(table: Table, pc: Pc) {
    KnowsQueue(table, pc) && KnowsClaim(table, pc)
  }

  predicate Claims(pc: Pc, id: ReservationId) {
    ClaimOf(pc).Some? && ClaimOf(pc).value.id == id
  }

  predicate Unclaimed(threads: seq<Pc>, id: ReservationId) {
    forall t | 0 <= t < |threads| :: !Claims(threads[t], id)
  }

  ghost predicate Accounted(threads: seq<Pc>, w: World, errors: seq<ReservationId>) {
    && (forall id | Unclaimed(threads, id) :: Balanced(AccountOf(w, errors, id), Idle))
    && (forall t | 0 <= t < |threads| && ClaimOf(threads[t]).Some? ::
          Balanced(AccountOf(w, errors, ClaimOf(threads[t]).value.id), StageOf(threads[t])))
  }

  ghost predicate AllInformed(threads: seq<Pc>, table: Table) {
    forall t | 0 <= t < |threads| :: Informed(table, threads[t])
  }

  ghost predicate Inv(s: State) {
    && WellKeyed(s.w)
    && Locks(s)
    && AllInformed(s.threads, s.w.reservations)
    && Accounted(s.threads, s.w, s.errors)
  }

  // ---------------------------------------------------------------- exclusion

  ghost predicate Engages(pc: Pc, id: ReservationId) {
    || (pc.Handling? && pc.h.Walk? && exists r :: r in pc.h.queue && r.id == id)
    || (pc.Handling? && pc.h.Claim? && pc.h.next.id == id)
    || Claims(pc, id)
  }

  lemma EngagedBook(table: Table, pc: Pc, id: ReservationId)
    requires Informed(table, pc) && Engages(pc, id)
    ensures id in table && JobOf(pc).Some? && JobOf(pc).value.loan.book == table[id].book
  {
  }

  /** No double work: two threads never look at the same reservation at once. */
  lemma EngagementIsExclusive(s: State, t: Tid, u: Tid, id: ReservationId)
    requires Inv(s) && t < |s.threads| && u < |s.threads|
    requires Engages(s.threads[t], id) && Engages(s.threads[u], id)
    ensures t == u
  {
    EngagedBook(s.w.reservations, s.threads[t], id);
    EngagedBook(s.w.reservations, s.threads[u], id);
    HandlersExclude(s, t, u);
  }

  // ---------------------------------------------------------------- preservation

  function AccountAfter(a: Account, id: ReservationId, e: Effect): Account {
    match e
    case Emit(event) => a.(ledger := Post(a.ledger, id, event))
    case PutReservation(r) => if r.id == id then a.(row := Some(r.fulfilledAt)) else a
    case LogUnfulfilError(r) => if r == id then a.(stuck := a.stuck + 1) else a
    case _ => a
  }

  lemma AccountFollows(s: State, t: Tid, e: Effect, id: ReservationId)
    ensures AccountOf(Apply(s, t, e).w, Apply(s, t, e).errors, id) == AccountAfter(AccountOf(s.w, s.errors, id), id, e)
  {
    match e
    case Emit(event) => assert (s.w.log + [event])[..|s.w.log|] == s.w.log;
    case LogUnfulfilError(r) => assert (s.errors + [r])[..|s.errors|] == s.errors;
    case _ =>
  }

  function StageFor(pc: Pc, id: ReservationId): Stage {
    if Claims(pc, id) then StageOf(pc) else Idle
  }

  /** Each step of the saga on its claim takes the claimed account to its next stage. */
  lemma ClaimBalances(w: World, job: Job, h: HandlerStep, c: Choice, a: Account)
    requires WellKeyed(w) && ClaimOf(Handling(job, h)).Some? && ClaimOf(Handling(job, h)).value.fulfilledAt.Some?
    requires Balanced(a, StageOf(Handling(job, h)))
    requires a.row.Some? && (h.Claimed? || h.Unfulfil? ==> a.row.value == ClaimOf(Handling(job, h)).value.fulfilledAt)
    ensures var (e, next) := HandlerMove(w, job, h, c); var id := ClaimOf(Handling(job, h)).value.id;
            Balanced(AccountAfter(a, id, e), StageFor(next, id))
  {
  }

  lemma FreshClaimBalances(w: World, job: Job, next: Reservation, c: Choice, a: Account)
    requires WellKeyed(w) && Balanced(a, Idle) && a.row == Some(None)
    ensures var (e, pc) := HandlerMove(w, job, Claim(next), c);
            Balanced(AccountAfter(a, next.id, e), StageFor(pc, next.id))
  {
  }

  /** Every move takes every reservation from one balanced stage to the next. */
  lemma HandlerBalances(w: World, job: Job, h: HandlerStep, c: Choice, id: ReservationId, a: Account)
    requires WellKeyed(w) && Informed(w.reservations, Handling(job, h))
    requires Balanced(a, StageFor(Handling(job, h), id))
    requires a.row == if id in w.reservations then Some(w.reservations[id].fulfilledAt) else None
    ensures var (e, next) := HandlerMove(w, job, h, c); Balanced(AccountAfter(a, id, e), StageFor(next, id))
  {
    if Claims(Handling(job, h), id) {
      ClaimBalances(w, job, h, c, a);
    } else if h.Claim? && h.next.id == id {
      FreshClaimBalances(w, job, h.next, c, a);
    } else {
      UntouchedByHandler(w, job, h, c, id, a);
    }
  }

  lemma UntouchedByHandler(w: World, job: Job, h: HandlerStep, c: Choice, id: ReservationId, a: Account)
    requires WellKeyed(w) && !Claims(Handling(job, h), id) && !(h.Claim? && h.next.id == id)
    ensures var (e, next) := HandlerMove(w, job, h, c); AccountAfter(a, id, e) == a && !Claims(next, id)
  {
  }

  lemma UntouchedByBorrow(w: World, caller: Caller, b: BorrowStep, c: Choice, id: ReservationId, a: Account)
    ensures var (e, next) := BorrowMove(w, caller, b, c);
            AccountAfter(a, id, e) == a && StageFor(next, id) == StageFor(Borrowing(caller, b), id)
  {
  }

  lemma ReserveBalances(w: World, q: ReserveStep, c: Choice, id: ReservationId, a: Account)
    requires Balanced(a, Idle) && Fresh(w, c)
    requires a.row == if id in w.reservations then Some(w.reservations[id].fulfilledAt) else None
    ensures var (e, next) := ReserveMove(w, q, c); Balanced(AccountAfter(a, id, e), Idle) && !Claims(next, id)
  {
  }

  predicate ElsewhereInTheService(pc: Pc) {
    !pc.Handling? && !pc.Borrowing? && !pc.Reserving?
  }

  lemma OtherMovesPostNothing(s: State, t: Tid, c: Choice, id: ReservationId, a: Account)
    requires Enabled(s, t) && WellKeyed(s.w) && ElsewhereInTheService(s.threads[t])
    ensures var (e, next) := Move(s, t, c); AccountAfter(a, id, e) == a && ClaimOf(next).None?
  {
  }

  lemma MoveBalances(s: State, t: Tid, c: Choice, id: ReservationId)
    requires Enabled(s, t) && WellKeyed(s.w) && Fresh(s.w, c) && Informed(s.w.reservations, s.threads[t])
    requires Balanced(AccountOf(s.w, s.errors, id), StageFor(s.threads[t], id))
    ensures var (e, next) := Move(s, t, c);
            Balanced(AccountAfter(AccountOf(s.w, s.errors, id), id, e), StageFor(next, id))
  {
    var a := AccountOf(s.w, s.errors, id);
    match s.threads[t]
    case Handling(job, h) =>
      assert Move(s, t, c) == HandlerMove(s.w, job, h, c);
      HandlerBalances(s.w, job, h, c, id, a);
    case Borrowing(caller, b) =>
      assert Move(s, t, c) == BorrowMove(s.w, caller, b, c);
      UntouchedByBorrow(s.w, caller, b, c, id, a);
    case Reserving(q) =>
      assert Move(s, t, c) == ReserveMove(s.w, q, c);
      ReserveBalances(s.w, q, c, id, a);
    case _ => OtherMovesPostNothing(s, t, c, id, a);
  }

  /** A move leaves alone the stored reservations its thread is not looking at. */
  lemma MoveIsLocal(s: State, t: Tid, c: Choice, id: ReservationId)
    requires Enabled(s, t) && WellKeyed(s.w) && Fresh(s.w, c) && id in s.w.reservations
    requires !Engages(s.threads[t], id)
    ensures var (e, next) := Move(s, t, c); var a := AccountOf(s.w, s.errors, id);
            AccountAfter(a, id, e) == a && !Claims(next, id)
  {
    var a := AccountOf(s.w, s.errors, id);
    match s.threads[t]
    case Handling(job, h) => UntouchedByHandler(s.w, job, h, c, id, a);
    case Borrowing(caller, b) => UntouchedByBorrow(s.w, caller, b, c, id, a);
    case Reserving(q) =>
    case _ => OtherMovesPostNothing(s, t, c, id, a);
  }

  /** The stage an account is in, seen from the one thread that may be working on it. */
  lemma StageSeenFrom(s: State, t: Tid, id: ReservationId)
    requires t < |s.threads| && Accounted(s.threads, s.w, s.errors)
    requires forall u | 0 <= u < |s.threads| && u != t :: !Claims(s.threads[u], id)
    ensures Balanced(AccountOf(s.w, s.errors, id), StageFor(s.threads[t], id))
  {
  }

  predicate ClaimedElsewhere(threads: seq<Pc>, t: Tid, id: ReservationId) {
    exists u :: 0 <= u < |threads| && u != t && Claims(threads[u], id)
  }

  /** The account of a reservation another thread works on stays as it is. */
  lemma AccountKeptElsewhere(s: State, t: Tid, c: Choice, u: Tid, id: ReservationId)
    requires Enabled(s, t) && Fresh(s.w, c) && Inv(s)
    requires u < |s.threads| && u != t && Claims(s.threads[u], id)
    ensures AccountOf(Step(s, t, c).w, Step(s, t, c).errors, id) == AccountOf(s.w, s.errors, id)
    ensures !Claims(Move(s, t, c).1, id)
  {
    if Engages(s.threads[t], id) { EngagementIsExclusive(s, t, u, id); }
    MoveIsLocal(s, t, c, id);
    AccountFollows(s, t, Move(s, t, c).0, id);
  }

  lemma AccountKeptHere(s: State, t: Tid, c: Choice, id: ReservationId)
    requires Enabled(s, t) && Fresh(s.w, c) && Inv(s) && !ClaimedElsewhere(s.threads, t, id)
    ensures Balanced(AccountOf(Step(s, t, c).w, Step(s, t, c).errors, id), StageFor(Move(s, t, c).1, id))
  {
    StageSeenFrom(s, t, id);
    MoveBalances(s, t, c, id);
    AccountFollows(s, t, Move(s, t, c).0, id);
  }

  lemma AccountedKept(s: State, t: Tid, c: Choice)
    requires Enabled(s, t) && Fresh(s.w, c) && Inv(s)
    ensures var s' := Step(s, t, c); Accounted(s'.threads, s'.w, s'.errors)
  {
    var s' := Step(s, t, c);
    assert s'.threads == s.threads[t := Move(s, t, c).1];
    forall id | Unclaimed(s'.threads, id) ensures Balanced(AccountOf(s'.w, s'.errors, id), Idle) {
      assert !Claims(s'.threads[t], id);
      assert forall u | 0 <= u < |s.threads| && u != t :: s'.threads[u] == s.threads[u] && !Claims(s'.threads[u], id);
      AccountKeptHere(s, t, c, id);
    }
    forall u | 0 <= u < |s'.threads| && ClaimOf(s'.threads[u]).Some?
      ensures Balanced(AccountOf(s'.w, s'.errors, ClaimOf(s'.threads[u]).value.id), StageOf(s'.threads[u]))
    {
      var id := ClaimOf(s'.threads[u]).value.id;
      if u != t {
        AccountKeptElsewhere(s, t, c, u, id);
      } else if ClaimedElsewhere(s.threads, t, id) {
        var v :| 0 <= v < |s.threads| && v != t && Claims(s.threads[v], id);
        AccountKeptElsewhere(s, t, c, v, id);
      } else {
        AccountKeptHere(s, t, c, id);
      }
    }
  }

  // What each thread knows stays true.

  lemma InformedFrame(table: Table, r: Reservation, pc: Pc)
    requires Informed(table, pc) && !Engages(pc, r.id)
    ensures Informed(table[r.id := r], pc)
  {
  }

  function TableAfter(table: Table, e: Effect): Table {
    if e.PutReservation? then table[e.reservation.id := e.reservation] else table
  }

  lemma HandlerInformed(w: World, job: Job, h: HandlerStep, c: Choice)
    requires WellKeyed(w) && Informed(w.reservations, Handling(job, h))
    ensures var (e, next) := HandlerMove(w, job, h, c); Informed(TableAfter(w.reservations, e), next)
  {
  }

  lemma BorrowInformed(w: World, caller: Caller, b: BorrowStep, c: Choice)
    requires Informed(w.reservations, Borrowing(caller, b))
    ensures var (e, next) := BorrowMove(w, caller, b, c); Informed(TableAfter(w.reservations, e), next)
  {
  }

  lemma MoverInformed(s: State, t: Tid, c: Choice)
    requires Enabled(s, t) && WellKeyed(s.w) && Fresh(s.w, c) && Informed(s.w.reservations, s.threads[t])
    ensures var (e, next) := Move(s, t, c); Informed(TableAfter(s.w.reservations, e), next)
  {
    match s.threads[t]
    case Handling(job, h) => HandlerInformed(s.w, job, h, c);
    case Borrowing(caller, b) => BorrowInformed(s.w, caller, b, c);
    case Reserving(q) =>
    case _ =>
  }

  lemma PutsOnlyEngagedOrFresh(s: State, t: Tid, c: Choice)
    requires Enabled(s, t) && WellKeyed(s.w) && Fresh(s.w, c)
    ensures var e := Move(s, t, c).0;
            e.PutReservation? ==> Engages(s.threads[t], e.reservation.id) || e.reservation.id !in s.w.reservations
  {
  }

  lemma ApplyTable(s: State, t: Tid, e: Effect)
    ensures Apply(s, t, e).w.reservations == TableAfter(s.w.reservations, e)
  {
  }

  lemma AllInformedKept(s: State, t: Tid, c: Choice)
    requires Enabled(s, t) && Fresh(s.w, c) && Inv(s)
    ensures var s' := Step(s, t, c); AllInformed(s'.threads, s'.w.reservations)
  {
    var s' := Step(s, t, c);
    var (e, next) := Move(s, t, c);
    MoverInformed(s, t, c);
    ApplyTable(s, t, e);
    PutsOnlyEngagedOrFresh(s, t, c);
    forall u | 0 <= u < |s'.threads| ensures Informed(s'.w.reservations, s'.threads[u]) {
      if u != t && e.PutReservation? {
        if Engages(s.threads[u], e.reservation.id) {
          EngagedBook(s.w.reservations, s.threads[u], e.reservation.id);
          EngagementIsExclusive(s, t, u, e.reservation.id);
        }
        InformedFrame(s.w.reservations, e.reservation, s.threads[u]);
      }
    }
  }

  /** Every step of every thread, failing or not, keeps the invariant. */
  lemma InvKept(s: State, t: Tid, c: Choice)
    requires Enabled(s, t) && Fresh(s.w, c) && Inv(s)
    ensures Inv(Step(s, t, c))
  {
    StepKeepsKeys(s, t, c);
    LocksKept(s, t, c);
    AllInformedKept(s, t, c);
    AccountedKept(s, t, c);
  }

  lemma InitInv(s: State)
    requires Init(s)
    ensures Inv(s)
  {
  }

  lemma {:induction false} RunKeepsInv(s: State, run: Schedule)
    requires Inv(s) && CanRun(s, run)
    ensures Inv(Run(s, run))
    decreases |run|
  {
    if run != [] {
      InvKept(s, run[0].0, run[0].1);
      RunKeepsInv(Step(s, run[0].0, run[0].1), run[1..]);
    }
  }
}
