/** The operations of the lending facade as one thread of the step machine runs them when no
    other thread gets in between: every such run ends in the tables and the log that the
    sequential specification gives, fault by fault. */
module SequentialRuns {
  import opened Domain
  import opened ReservationQueue
  import opened SagaMachine
  import Spec = LendingSpec

  /** What befalls one operation: the faults of its calls, the identifier it mints and the
      time on its clock. A reservation uses only find and save, a direct borrow only the
      handler's borrow faults. */
  datatype Fate = Fate(faults: Spec.ReturnFaults, id: nat, now: int)

  // ---------------------------------------------------------------- what is left to do

  function BorrowFaultAt(b: BorrowStep, f: Spec.BorrowFaults): bool {
    match b
    case Authorize(_, _, _) => false
    case Qualify(_, _) => f.eligibility
    case FindCopy(_, _) => f.findCopy
    case OpenLoan(_, _) => f.saveLoan
    case AnnounceOpened(_) => false
    case FindLent(_) => f.markFind
    case MarkUnavailable(_, _) => f.markSave
  }

  function HandlerFaultAt(h: HandlerStep, f: Spec.HandlerFaults): bool {
    match h
    case List => f.list
    case Walk(queue) => queue != [] && queue[0].id in f.eligibility
    case Claim(_) => f.claim
    case Unfulfil(_, _) => f.unfulfil
    case _ => false
  }

  function ReturnFaultAt(r: ReturnStep, f: Spec.ReturnFaults): bool {
    match r
    case Find(_) => f.find
    case CloseLoan(_) => f.save
    case FindReturned(_) => f.markFind
    case MarkAvailable(_, _) => f.markSave
    case AnnounceReturned(_) => false
  }

  function FaultAt(pc: Pc, f: Spec.ReturnFaults): bool {
    match pc
    case Returning(r) => ReturnFaultAt(r, f)
    case Handling(_, h) => HandlerFaultAt(h, f.handler)
    case Borrowing(_, b) => BorrowFaultAt(b, f.handler.borrow)
    case Reserving(QualifyReserver(_, _)) => f.find
    case Reserving(Enqueue(_, _)) => f.save
    case _ => false
  }

  /** The choice at pc is the one this fate makes. */
  predicate Follows(pc: Pc, c: Choice, fate: Fate) {
    && c.fault == FaultAt(pc, fate.faults) && c.now == fate.now
    && ((pc.Borrowing? && pc.b.OpenLoan?) || (pc.Reserving? && pc.q.Enqueue?) ==> c.id == fate.id)
  }

  function Taint(lib: Spec.Library, copyId: CopyId): Spec.Library {
    lib.(tainted := lib.tainted + {copyId})
  }

  function PutCopy(lib: Spec.Library, copy: Copy): Spec.Library {
    lib.(w := lib.w.(copies := lib.w.copies[copy.id := copy]))
  }

  /** The rest of a borrow, by where it stands. */
  function RestOfBorrow(lib: Spec.Library, b: BorrowStep, fate: Fate): (Spec.Library, Spec.Result<Loan, BorrowError>) {
    var f := fate.faults.handler.borrow;
    match b
    case Authorize(role, member, copyId) => Spec.Borrow(lib, role, member, copyId, f, fate.id, fate.now)
    case Qualify(member, copyId) => Spec.Borrow(lib, RoleMember, member, copyId, f, fate.id, fate.now)
    case FindCopy(member, copyId) =>
      if f.findCopy || copyId !in lib.w.copies then (lib, Spec.Err(CopyLookupFailed))
      else if lib.w.copies[copyId].status != Available then (lib, Spec.Err(CopyUnavailable))
      else RestOfOpen(lib, member, lib.w.copies[copyId], fate)
    case OpenLoan(member, copy) => RestOfOpen(lib, member, copy, fate)
    case AnnounceOpened(lent) => RestOfMark(Spec.Publish(lib, LoanOpenedEvent(lent)), lent, f)
    case FindLent(lent) => RestOfMark(lib, lent, f)
    case MarkUnavailable(lent, copy) =>
      if f.markSave then (Taint(lib, lent.copyId), Spec.Err(MarkUnavailableFailed))
      else (PutCopy(lib, copy.(status := Unavailable)), Spec.Ok(lent))
  }

  function RestOfOpen(lib: Spec.Library, member: MemberId, copy: Copy, fate: Fate)
    : (Spec.Library, Spec.Result<Loan, BorrowError>)
  {
    var loan := BuildLoan(fate.id, member, copy, fate.now);
    if fate.faults.handler.borrow.saveLoan then (lib, Spec.Err(LoanSaveFailed))
    else RestOfMark(Spec.Publish(Spec.PutLoan(lib, loan), LoanOpenedEvent(loan)), loan, fate.faults.handler.borrow)
  }

  function RestOfMark(lib: Spec.Library, lent: Loan, f: Spec.BorrowFaults)
    : (Spec.Library, Spec.Result<Loan, BorrowError>)
  {
    var (marked, ok) := Spec.Mark(lib, lent.copyId, Unavailable, f.markFind, f.markSave);
    (marked, if ok then Spec.Ok(lent) else Spec.Err(MarkUnavailableFailed))
  }

  function GiveUp(lib: Spec.Library, claim: Reservation, e: BorrowError, now: int): Spec.Library {
    Spec.Publish(lib, AutoLoanFailed(claim.book, claim.id, claim.member, e, now))
  }

  /** What the caller of a borrow does with its answer. */
  function AfterBorrow(lib: Spec.Library, caller: Caller, result: Spec.Result<Loan, BorrowError>, fate: Fate)
    : Spec.Library
  {
    match caller
    case Client => lib
    case Saga(job, claim) =>
      match result
      case Ok(loan) => Spec.Publish(lib, AutoLoanOpened(loan.book, loan.id, loan.member, claim.id, fate.now))
      case Err(e) => GiveUp(Spec.TryUnfulfil(lib, claim, fate.faults.handler.unfulfil, fate.now), claim, e, fate.now)
  }

  ghost function RestOfHandler(lib: Spec.Library, job: Job, h: HandlerStep, fate: Fate): Spec.Library
    requires WellKeyed(lib.w)
  {
    var f, now := fate.faults.handler, fate.now;
    match h
    case List => Spec.ProcessReturn(lib, job.loan.book, job.loan.copyId, f, fate.id, now)
    case Walk(queue) =>
      (match Spec.FirstEligible(lib.w.members, queue, f.eligibility)
       case None => lib
       case Some(r) => Spec.Attempt(lib, r, job.loan.copyId, f, fate.id, now))
    case Claim(next) => Spec.Attempt(lib, next, job.loan.copyId, f, fate.id, now)
    case Claimed(claim) =>
      var at := Instant(claim.fulfilledAt);
      var claimed := Spec.Publish(lib, ReservationFulfilled(claim.id, claim.member, claim.book, at));
      var (after, result) := Spec.Borrow(claimed, RoleMember, claim.member, job.loan.copyId, f.borrow, fate.id, now);
      AfterBorrow(after, Saga(job, claim), result, fate)
    case Succeeded(claim, lent) => Spec.Publish(lib, AutoLoanOpened(lent.book, lent.id, lent.member, claim.id, now))
    case Unfulfil(claim, e) => GiveUp(Spec.TryUnfulfil(lib, claim, f.unfulfil, now), claim, e, now)
    case Unfulfilled(claim, e) =>
      GiveUp(Spec.Publish(lib, ReservationUnfulfilled(claim.id, claim.member, claim.book, now)), claim, e, now)
    case Failed(claim, e, _) => GiveUp(lib, claim, e, now)
    case Unlock(_) => lib
  }

  ghost function Consumed(lib: Spec.Library, loan: Loan, fate: Fate): Spec.Library
    requires WellKeyed(lib.w)
  {
    Spec.ProcessReturn(lib, loan.book, loan.copyId, fate.faults.handler, fate.id, fate.now)
  }

  ghost function Announced(lib: Spec.Library, loan: Loan, fate: Fate): Spec.Library
    requires WellKeyed(lib.w)
  {
    var told := Spec.Publish(lib, LoanReturnedEvent(loan, Instant(loan.returnedAt)));
    if lib.subscribed then Consumed(told, loan, fate) else told
  }

  ghost function RestOfReturn(lib: Spec.Library, r: ReturnStep, fate: Fate): Spec.Library
    requires WellKeyed(lib.w)
  {
    var f := fate.faults;
    match r
    case Find(loanId) => Spec.ReturnLoan(lib, loanId, f, fate.id, fate.now).0
    case CloseLoan(loan) =>
      if f.save then lib
      else
        var closed := loan.(returnedAt := Some(fate.now));
        RestOfShelving(Spec.PutLoan(lib, closed), closed, fate)
    case FindReturned(loan) => RestOfShelving(lib, loan, fate)
    case MarkAvailable(loan, copy) =>
      if f.markSave then Taint(lib, loan.copyId) else Announced(PutCopy(lib, copy.(status := Available)), loan, fate)
    case AnnounceReturned(loan) => Announced(lib, loan, fate)
  }

  ghost function RestOfShelving(lib: Spec.Library, closed: Loan, fate: Fate): Spec.Library
    requires WellKeyed(lib.w)
  {
    var (marked, ok) := Spec.Mark(lib, closed.copyId, Available, fate.faults.markFind, fate.faults.markSave);
    if ok then Announced(marked, closed, fate) else marked
  }

  function RestOfReserve(lib: Spec.Library, q: ReserveStep, fate: Fate): Spec.Library {
    match q
    case QualifyReserver(member, book) =>
      Spec.Reserve(lib, member, book, fate.faults.find, fate.faults.save, fate.id, fate.now).0
    case Enqueue(member, book) =>
      var r := Reservation(fate.id, member, book, fate.now, None);
      if fate.faults.save then lib else Spec.Publish(Spec.PutReservation(lib, r), ReservationQueuedEvent(r))
    case AnnounceQueued(queued) => Spec.Publish(lib, ReservationQueuedEvent(queued))
  }

  /** The library once the thread has done what it still has to do, nobody interfering. */
  ghost function Rest(lib: Spec.Library, pc: Pc, fate: Fate): Spec.Library
    requires WellKeyed(lib.w)
  {
    match pc
    case Returning(r) => RestOfReturn(lib, r, fate)
    case Allocate(loan) => Consumed(lib, loan, fate)
    case Allocated(loan) => Consumed(lib, loan, fate)
    case AwaitLock(job) => Consumed(lib, job.loan, fate)
    case Handling(job, h) => RestOfHandler(lib, job, h, fate)
    case Borrowing(caller, b) =>
      var (after, result) := RestOfBorrow(lib, b, fate);
      AfterBorrow(after, caller, result, fate)
    case Reserving(q) => RestOfReserve(lib, q, fate)
    case _ => lib
  }

  // ---------------------------------------------------------------- one step of it

  /** What an access does to the tables and the log. */
  function Written(w: World, e: Effect): World {
    match e
    case PutMember(member, status) => w.(members := w.members[member := status])
    case PutCopy(copy) => w.(copies := w.copies[copy.id := copy])
    case PutLoan(loan) => w.(loans := w.loans[loan.id := loan])
    case PutReservation(r) => w.(reservations := w.reservations[r.id := r])
    case Emit(event) => w.(log := w.log + [event])
    case _ => w
  }

  /** The copy whose Mark call an access makes fail. */
  function Spoiled(w: World, pc: Pc, fault: bool): Option<CopyId> {
    match pc
    case Returning(FindReturned(loan)) => if fault || loan.copyId !in w.copies then Some(loan.copyId) else None
    case Returning(MarkAvailable(loan, _)) => if fault then Some(loan.copyId) else None
    case Borrowing(_, FindLent(lent)) => if fault || lent.copyId !in w.copies then Some(lent.copyId) else None
    case Borrowing(_, MarkUnavailable(lent, _)) => if fault then Some(lent.copyId) else None
    case _ => None
  }

  function Moved(lib: Spec.Library, pc: Pc, e: Effect, fault: bool): Spec.Library {
    var moved := lib.(w := Written(lib.w, e));
    match Spoiled(lib.w, pc, fault)
    case None => moved
    case Some(copyId) => Taint(moved, copyId)
  }

  lemma QualifyDoesTheRest(lib: Spec.Library, caller: Caller, b: BorrowStep, c: Choice, fate: Fate)
    requires WellKeyed(lib.w) && Follows(Borrowing(caller, b), c, fate) && (b.Authorize? || b.Qualify?)
    ensures var (e, next) := BorrowMove(lib.w, caller, b, c);
      e == Nothing && Rest(lib, next, fate) == Rest(lib, Borrowing(caller, b), fate)
  {
  }

  lemma FindCopyDoesTheRest(lib: Spec.Library, caller: Caller, member: MemberId, copyId: CopyId, c: Choice, fate: Fate)
    requires WellKeyed(lib.w) && Follows(Borrowing(caller, FindCopy(member, copyId)), c, fate)
    ensures var (e, next) := BorrowMove(lib.w, caller, FindCopy(member, copyId), c);
      e == Nothing && Rest(lib, next, fate) == Rest(lib, Borrowing(caller, FindCopy(member, copyId)), fate)
  {
  }

  lemma OpenDoesTheRest(lib: Spec.Library, caller: Caller, member: MemberId, copy: Copy, c: Choice, fate: Fate)
    requires WellKeyed(lib.w) && Follows(Borrowing(caller, OpenLoan(member, copy)), c, fate)
    ensures var (e, next) := BorrowMove(lib.w, caller, OpenLoan(member, copy), c);
      WellKeyed(Written(lib.w, e)) &&
      Rest(lib.(w := Written(lib.w, e)), next, fate) == Rest(lib, Borrowing(caller, OpenLoan(member, copy)), fate)
  {
  }

  lemma AnnounceDoesTheRest(lib: Spec.Library, caller: Caller, lent: Loan, c: Choice, fate: Fate)
    requires WellKeyed(lib.w) && Follows(Borrowing(caller, AnnounceOpened(lent)), c, fate)
    ensures var (e, next) := BorrowMove(lib.w, caller, AnnounceOpened(lent), c);
      WellKeyed(Written(lib.w, e)) &&
      Rest(lib.(w := Written(lib.w, e)), next, fate) == Rest(lib, Borrowing(caller, AnnounceOpened(lent)), fate)
  {
  }

  lemma MarkDoesTheRest(lib: Spec.Library, caller: Caller, b: BorrowStep, c: Choice, fate: Fate)
    requires WellKeyed(lib.w) && Follows(Borrowing(caller, b), c, fate) && (b.FindLent? || b.MarkUnavailable?)
    ensures var (e, next) := BorrowMove(lib.w, caller, b, c);
      WellKeyed(Written(lib.w, e)) &&
      Rest(Moved(lib, Borrowing(caller, b), e, c.fault), next, fate) == Rest(lib, Borrowing(caller, b), fate)
  {
  }

  lemma BorrowDoesTheRest(lib: Spec.Library, caller: Caller, b: BorrowStep, c: Choice, fate: Fate)
    requires WellKeyed(lib.w) && Follows(Borrowing(caller, b), c, fate)
    ensures var (e, next) := BorrowMove(lib.w, caller, b, c);
      WellKeyed(Written(lib.w, e)) &&
      Rest(Moved(lib, Borrowing(caller, b), e, c.fault), next, fate) == Rest(lib, Borrowing(caller, b), fate)
  {
    match b
    case OpenLoan(member, copy) => OpenDoesTheRest(lib, caller, member, copy, c, fate);
    case AnnounceOpened(lent) => AnnounceDoesTheRest(lib, caller, lent, c, fate);
    case FindLent(_) => MarkDoesTheRest(lib, caller, b, c, fate);
    case MarkUnavailable(_, _) => MarkDoesTheRest(lib, caller, b, c, fate);
    case FindCopy(member, copyId) => FindCopyDoesTheRest(lib, caller, member, copyId, c, fate);
    case _ => QualifyDoesTheRest(lib, caller, b, c, fate);
  }

  lemma WalkDoesTheRest(lib: Spec.Library, job: Job, queue: seq<Reservation>, c: Choice, fate: Fate)
    requires WellKeyed(lib.w) && Follows(Handling(job, Walk(queue)), c, fate)
    ensures var (e, next) := HandlerMove(lib.w, job, Walk(queue), c);
      e == Nothing && Rest(lib, next, fate) == Rest(lib, Handling(job, Walk(queue)), fate)
  {
  }

  lemma ClaimDoesTheRest(lib: Spec.Library, job: Job, h: HandlerStep, c: Choice, fate: Fate)
    requires WellKeyed(lib.w) && Follows(Handling(job, h), c, fate) && (h.Claim? || h.Claimed?)
    ensures var (e, next) := HandlerMove(lib.w, job, h, c);
      WellKeyed(Written(lib.w, e)) &&
      Rest(Moved(lib, Handling(job, h), e, c.fault), next, fate) == Rest(lib, Handling(job, h), fate)
  {
  }

  lemma ListDoesTheRest(lib: Spec.Library, job: Job, c: Choice, fate: Fate)
    requires WellKeyed(lib.w) && Follows(Handling(job, List), c, fate)
    ensures var (e, next) := HandlerMove(lib.w, job, List, c);
      e == Nothing && Rest(lib, next, fate) == Rest(lib, Handling(job, List), fate)
  {
  }

  lemma UnfulfilDoesTheRest(lib: Spec.Library, job: Job, h: HandlerStep, c: Choice, fate: Fate)
    requires WellKeyed(lib.w) && Follows(Handling(job, h), c, fate) && (h.Unfulfil? || h.Unfulfilled?)
    ensures var (e, next) := HandlerMove(lib.w, job, h, c);
      WellKeyed(Written(lib.w, e)) &&
      Rest(Moved(lib, Handling(job, h), e, c.fault), next, fate) == Rest(lib, Handling(job, h), fate)
  {
  }

  lemma OutcomeDoesTheRest(lib: Spec.Library, job: Job, h: HandlerStep, c: Choice, fate: Fate)
    requires WellKeyed(lib.w) && Follows(Handling(job, h), c, fate) && (h.Succeeded? || h.Failed? || h.Unlock?)
    ensures var (e, next) := HandlerMove(lib.w, job, h, c);
      WellKeyed(Written(lib.w, e)) &&
      Rest(Moved(lib, Handling(job, h), e, c.fault), next, fate) == Rest(lib, Handling(job, h), fate)
  {
  }

  lemma HandlerDoesTheRest(lib: Spec.Library, job: Job, h: HandlerStep, c: Choice, fate: Fate)
    requires WellKeyed(lib.w) && Follows(Handling(job, h), c, fate)
    ensures var (e, next) := HandlerMove(lib.w, job, h, c);
      WellKeyed(Written(lib.w, e)) &&
      Rest(Moved(lib, Handling(job, h), e, c.fault), next, fate) == Rest(lib, Handling(job, h), fate)
  {
    match h
    case List => ListDoesTheRest(lib, job, c, fate);
    case Unfulfil(_, _) => UnfulfilDoesTheRest(lib, job, h, c, fate);
    case Unfulfilled(_, _) => UnfulfilDoesTheRest(lib, job, h, c, fate);
    case Walk(queue) => WalkDoesTheRest(lib, job, queue, c, fate);
    case Claim(_) => ClaimDoesTheRest(lib, job, h, c, fate);
    case Claimed(_) => ClaimDoesTheRest(lib, job, h, c, fate);
    case _ => OutcomeDoesTheRest(lib, job, h, c, fate);
  }

  lemma ReturnDoesTheRest(lib: Spec.Library, r: ReturnStep, c: Choice, fate: Fate)
    requires WellKeyed(lib.w) && Follows(Returning(r), c, fate)
    ensures var (e, next) := ReturnMove(lib.w, lib.subscribed, r, c);
      WellKeyed(Written(lib.w, e)) &&
      Rest(Moved(lib, Returning(r), e, c.fault), next, fate) == Rest(lib, Returning(r), fate)
  {
  }

  lemma ReserveDoesTheRest(lib: Spec.Library, q: ReserveStep, c: Choice, fate: Fate)
    requires WellKeyed(lib.w) && Follows(Reserving(q), c, fate)
    ensures var (e, next) := ReserveMove(lib.w, q, c);
      WellKeyed(Written(lib.w, e)) &&
      Rest(Moved(lib, Reserving(q), e, c.fault), next, fate) == Rest(lib, Reserving(q), fate)
  {
  }

  // ---------------------------------------------------------------- whole operations

  predicate IsOperation(pc: Pc) {
    || pc.Returning? || pc.Allocate? || pc.Allocated? || pc.AwaitLock?
    || pc.Handling? || pc.Borrowing? || pc.Reserving? || pc.Done?
  }

  /** The library a state holds; what was tainted before does not matter here. */
  predicate Shows(s: State, lib: Spec.Library) {
    lib.w == s.w && lib.subscribed == s.subscribed
  }

  lemma ContinueWrites(s: State, t: Tid, e: Effect, next: Pc)
    requires t < |s.threads| && !e.SetSubscribed?
    ensures var s' := Continue(s, t, e, next);
      s'.w == Written(s.w, e) && s'.subscribed == s.subscribed && s'.threads[t] == next
  {
  }

  lemma MoveStaysInOperation(s: State, t: Tid, c: Choice)
    requires Enabled(s, t) && WellKeyed(s.w) && IsOperation(s.threads[t])
    ensures IsOperation(Move(s, t, c).1) && !Move(s, t, c).0.SetSubscribed?
  {
  }

  lemma LockingDoesTheRest(s: State, t: Tid, lib: Spec.Library, c: Choice, fate: Fate)
    requires Enabled(s, t) && WellKeyed(s.w) && Shows(s, lib)
    requires s.threads[t].Allocate? || s.threads[t].Allocated? || s.threads[t].AwaitLock?
    ensures Written(s.w, Move(s, t, c).0) == s.w && Rest(lib, Move(s, t, c).1, fate) == Rest(lib, s.threads[t], fate)
  {
  }

  lemma MoveDoesTheRest(s: State, t: Tid, lib: Spec.Library, c: Choice, fate: Fate)
    requires Enabled(s, t) && WellKeyed(s.w) && Shows(s, lib)
    requires IsOperation(s.threads[t]) && Follows(s.threads[t], c, fate)
    ensures var (e, next) := Move(s, t, c);
      WellKeyed(Written(s.w, e)) &&
      Rest(Moved(lib, s.threads[t], e, c.fault), next, fate) == Rest(lib, s.threads[t], fate)
  {
    match s.threads[t]
    case Returning(r) => ReturnDoesTheRest(lib, r, c, fate);
    case Handling(job, h) => HandlerDoesTheRest(lib, job, h, c, fate);
    case Borrowing(caller, b) => BorrowDoesTheRest(lib, caller, b, c, fate);
    case Reserving(q) => ReserveDoesTheRest(lib, q, c, fate);
    case _ => LockingDoesTheRest(s, t, lib, c, fate);
  }

  lemma StepDoesTheRest(s: State, t: Tid, lib: Spec.Library, c: Choice, fate: Fate) returns (lib': Spec.Library)
    requires Enabled(s, t) && WellKeyed(s.w) && Shows(s, lib)
    requires IsOperation(s.threads[t]) && Follows(s.threads[t], c, fate)
    ensures Shows(Step(s, t, c), lib') && WellKeyed(lib'.w) && IsOperation(Step(s, t, c).threads[t])
    ensures Rest(lib', Step(s, t, c).threads[t], fate) == Rest(lib, s.threads[t], fate)
  {
    var (e, next) := Move(s, t, c);
    lib' := Moved(lib, s.threads[t], e, c.fault);
    MoveStaysInOperation(s, t, c);
    ContinueWrites(s, t, e, next);
    MoveDoesTheRest(s, t, lib, c, fate);
  }

  /** Only t moves, and every choice is the one its fate makes. */
  ghost predicate RunsAlone(s: State, t: Tid, run: Schedule, fate: Fate)
    requires WellKeyed(s.w) && CanRun(s, run)
    decreases |run|
  {
    run == [] ||
    (run[0].0 == t && Follows(s.threads[t], run[0].1, fate) &&
     (StepKeepsKeys(s, t, run[0].1); RunsAlone(Step(s, t, run[0].1), t, run[1..], fate)))
  }

  lemma {:induction false} RunDoesTheRest(s: State, t: Tid, lib: Spec.Library, run: Schedule, fate: Fate)
    returns (lib': Spec.Library)
    requires WellKeyed(s.w) && CanRun(s, run) && RunsAlone(s, t, run, fate)
    requires t < |s.threads| && IsOperation(s.threads[t]) && Shows(s, lib)
    ensures t < |Run(s, run).threads| && Shows(Run(s, run), lib')
    ensures Rest(lib', Run(s, run).threads[t], fate) == Rest(lib, s.threads[t], fate)
    decreases |run|
  {
    if run == [] {
      lib' := lib;
    } else {
      var c := run[0].1;
      StepKeepsKeys(s, t, c);
      var next := StepDoesTheRest(s, t, lib, c, fate);
      lib' := RunDoesTheRest(Step(s, t, c), t, next, run[1..], fate);
    }
  }

  /** A ReturnLoan that runs from start to end with nobody interfering, the consumer's handler
      included, leaves exactly what the sequential specification says. */
  lemma ReturnAlone(s: State, t: Tid, run: Schedule, loanId: LoanId, fate: Fate)
    requires WellKeyed(s.w) && t < |s.threads| && s.threads[t] == Returning(Find(loanId))
    requires CanRun(s, run) && RunsAlone(s, t, run, fate)
    ensures var end, lib := Run(s, run), Spec.Library(s.w, {}, s.subscribed);
      t < |end.threads| && (end.threads[t].Done? ==>
        end.w == Spec.ReturnLoan(lib, loanId, fate.faults, fate.id, fate.now).0.w)
  {
    var end := RunDoesTheRest(s, t, Spec.Library(s.w, {}, s.subscribed), run, fate);
  }

  /** Likewise a direct Borrow. */
  lemma BorrowAlone(s: State, t: Tid, run: Schedule, role: Role, member: MemberId, copyId: CopyId, fate: Fate)
    requires WellKeyed(s.w) && t < |s.threads| && s.threads[t] == Borrowing(Client, Authorize(role, member, copyId))
    requires CanRun(s, run) && RunsAlone(s, t, run, fate)
    ensures var end, lib := Run(s, run), Spec.Library(s.w, {}, s.subscribed);
      t < |end.threads| && (end.threads[t].Done? ==>
        end.w == Spec.Borrow(lib, role, member, copyId, fate.faults.handler.borrow, fate.id, fate.now).0.w)
  {
    var end := RunDoesTheRest(s, t, Spec.Library(s.w, {}, s.subscribed), run, fate);
  }

  /** Likewise a Reserve. */
  lemma ReserveAlone(s: State, t: Tid, run: Schedule, member: MemberId, book: BookId, fate: Fate)
    requires WellKeyed(s.w) && t < |s.threads| && s.threads[t] == Reserving(QualifyReserver(member, book))
    requires CanRun(s, run) && RunsAlone(s, t, run, fate)
    ensures var end, lib := Run(s, run), Spec.Library(s.w, {}, s.subscribed);
      t < |end.threads| && (end.threads[t].Done? ==>
        end.w == Spec.Reserve(lib, member, book, fate.faults.find, fate.faults.save, fate.id, fate.now).0.w)
  {
    var end := RunDoesTheRest(s, t, Spec.Library(s.w, {}, s.subscribed), run, fate);
  }

  /** A change of standing is one step: that of the sequential specification. */
  lemma StatusAlone(s: State, t: Tid, member: MemberId, status: MembershipStatus, c: Choice)
    requires WellKeyed(s.w) && t < |s.threads| && s.threads[t] == ChangeStatus(member, status)
    ensures var lib := Spec.Library(s.w, {}, s.subscribed);
      Step(s, t, c) == s.(w := Spec.SetStatus(lib, member, status, c.fault).0.w,
                          threads := s.threads[t := Done(Ended)])
  {
    assert Step(s, t, c).threads == s.threads[t := Done(Ended)];
  }

  /** Start and Stop, uninterrupted, attach and detach the consumer and give the lock back. */
  lemma LifecycleAlone(s: State, t: Tid, start: bool, c: Choice)
    requires WellKeyed(s.w) && t < |s.threads| && s.threads[t] == LifecycleLock(start) && s.lifecycleHolder == None
    ensures var locked := Step(s, t, c);
      Enabled(locked, t) && var acted := Step(locked, t, c);
      Enabled(acted, t) && Step(acted, t, c) == s.(subscribed := start, threads := s.threads[t := Done(Ended)])
  {
    var locked := Step(s, t, c);
    var acted := Step(locked, t, c);
    assert Step(acted, t, c).threads == s.threads[t := Done(Ended)];
  }
}
