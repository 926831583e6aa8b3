/** The lending facade over the in-memory adapters, with the auto-loan consumer attached,
    as its methods run one at a time. */
module LendingFacade {
  import opened Domain
  import opened ReservationQueue
  import Spec = LendingSpec

  class Facade {
    var members: map<MemberId, MembershipStatus>
    var copies: map<CopyId, Copy>
    var loans: map<LoanId, Loan>
    var reservations: map<ReservationId, Reservation>
    var log: seq<Event>
    var subscribed: bool
    ghost var tainted: set<CopyId>

    ghost function World(): World
      reads this
    {
      Domain.World(members, copies, loans, reservations, log)
    }

    ghost function Library(): Spec.Library
      reads this
    {
      Spec.Library(World(), tainted, subscribed)
    }

    ghost predicate Valid()
      reads this
    {
      WellKeyed(World())
    }

    constructor ()
      ensures Valid() && Library() == Spec.Library(Domain.World(map[], map[], map[], map[], []), {}, false)
    {
      members, copies, loans, reservations, log := map[], map[], map[], map[], [];
      subscribed, tainted := false, {};
    }

    method Publish(e: Event)
      modifies this`log
      ensures Library() == Spec.Publish(old(Library()), e)
    {
      log := log + [e];
    }

    method MarkCopy(copyId: CopyId, status: CopyStatus, findFault: bool, saveFault: bool) returns (ok: bool)
      requires Valid()
      modifies this`copies, this`tainted
      ensures Valid() && (Library(), ok) == Spec.Mark(old(Library()), copyId, status, findFault, saveFault)
    {
      ok := false;
      if findFault || copyId !in copies || saveFault {
        tainted := tainted + {copyId};
        return;
      }
      var updated := copies[copyId].(status := status);
      copies := copies[updated.id := updated];
      ok := true;
    }

    method Borrow(role: Role, member: MemberId, copyId: CopyId, f: Spec.BorrowFaults, id: LoanId, now: int)
      returns (r: Spec.Result<Loan, BorrowError>)
      requires Valid()
      modifies this
      ensures Valid() && (Library(), r) == Spec.Borrow(old(Library()), role, member, copyId, f, id, now)
    {
      if !role.RoleMember? { return Spec.Err(UnauthorizedRole); }
      var eligibility := CheckEligibility(members, member, f.eligibility);
      if eligibility.LookupFailed? { return Spec.Err(MemberLookupFailed); }
      if eligibility.Ineligible? { return Spec.Err(MemberIneligible); }
      if f.findCopy || copyId !in copies { return Spec.Err(CopyLookupFailed); }
      var copy := copies[copyId];
      if copy.status != Available { return Spec.Err(CopyUnavailable); }
      var loan := BuildLoan(id, member, copy, now);
      if f.saveLoan { return Spec.Err(LoanSaveFailed); }
      loans := loans[loan.id := loan];
      Publish(LoanOpenedEvent(loan));
      var ok := MarkCopy(copyId, Unavailable, f.markFind, f.markSave);
      if !ok { return Spec.Err(MarkUnavailableFailed); }
      r := Spec.Ok(loan);
    }

    method Reserve(member: MemberId, book: BookId, checkFault: bool, saveFault: bool, id: ReservationId, now: int)
      returns (r: Spec.Result<Reservation, Spec.ReserveError>)
      requires Valid()
      modifies this
      ensures Valid() && (Library(), r) == Spec.Reserve(old(Library()), member, book, checkFault, saveFault, id, now)
    {
      var eligibility := CheckEligibility(members, member, checkFault);
      if eligibility.LookupFailed? { return Spec.Err(Spec.ReserverLookupFailed); }
      if eligibility.Ineligible? { return Spec.Err(Spec.ReserverIneligible); }
      var reservation := Reservation(id, member, book, now, None);
      if saveFault { return Spec.Err(Spec.ReservationSaveFailed); }
      reservations := reservations[id := reservation];
      Publish(ReservationQueuedEvent(reservation));
      r := Spec.Ok(reservation);
    }

    method TryUnfulfilClaim(claim: Reservation, fault: bool, now: int)
      requires Valid()
      modifies this
      ensures Valid() && Library() == Spec.TryUnfulfil(old(Library()), claim, fault, now)
    {
      var unfulfilled := claim.(fulfilledAt := None);
      if fault { return; }
      reservations := reservations[unfulfilled.id := unfulfilled];
      Publish(ReservationUnfulfilled(unfulfilled.id, unfulfilled.member, unfulfilled.book, now));
    }

    method AttemptAutoLoan(reservation: Reservation, copyId: CopyId, f: Spec.HandlerFaults, id: LoanId, now: int)
      requires Valid()
      modifies this
      ensures Valid() && Library() == Spec.Attempt(old(Library()), reservation, copyId, f, id, now)
    {
      if f.claim { return; }
      var claimed := reservation.(fulfilledAt := Some(now));
      reservations := reservations[claimed.id := claimed];
      Publish(ReservationFulfilled(claimed.id, claimed.member, claimed.book, now));
      var result := Borrow(RoleMember, claimed.member, copyId, f.borrow, id, now);
      match result
      case Err(reason) =>
        TryUnfulfilClaim(claimed, f.unfulfil, now);
        Publish(AutoLoanFailed(claimed.book, claimed.id, claimed.member, reason, now));
      case Ok(loan) =>
        Publish(AutoLoanOpened(loan.book, loan.id, loan.member, claimed.id, now));
    }

    /** The early-exit walk: skip reservers who may not borrow, attempt the first who may,
        then stop whatever came of it. */
    method ProcessReturn(book: BookId, copyId: CopyId, f: Spec.HandlerFaults, id: LoanId, now: int)
      requires Valid()
      modifies this
      ensures Valid() && Library() == Spec.ProcessReturn(old(Library()), book, copyId, f, id, now)
    {
      if f.list { return; }
      var pending := ListPendingReservationsForBook(reservations, book);
      for i := 0 to |pending|
        invariant Valid() && Library() == old(Library())
        invariant Spec.FirstEligible(members, pending, f.eligibility) ==
          Spec.FirstEligible(members, pending[i..], f.eligibility)
      {
        assert pending[i..][1..] == pending[i + 1..];
        if CheckEligibility(members, pending[i].member, pending[i].id in f.eligibility).Eligible? {
          AttemptAutoLoan(pending[i], copyId, f, id, now);
          return;
        }
      }
    }

    method ReturnLoan(loanId: LoanId, f: Spec.ReturnFaults, id: LoanId, now: int)
      returns (r: Spec.Result<Loan, Spec.ReturnError>)
      requires Valid()
      modifies this
      ensures Valid() && (Library(), r) == Spec.ReturnLoan(old(Library()), loanId, f, id, now)
    {
      if f.find { return Spec.Err(Spec.LoanLookupFailed); }
      if loanId !in loans { return Spec.Err(Spec.LoanNotFound); }
      var returned := loans[loanId].(returnedAt := Some(now));
      if f.save { return Spec.Err(Spec.LoanCommitFailed); }
      loans := loans[returned.id := returned];
      var ok := MarkCopy(returned.copyId, Available, f.markFind, f.markSave);
      if !ok { return Spec.Err(Spec.MarkAvailableFailed); }
      Publish(LoanReturnedEvent(returned, now));
      if subscribed {
        ProcessReturn(returned.book, returned.copyId, f.handler, id, now);
      }
      r := Spec.Ok(returned);
    }

    method SetStatus(member: MemberId, status: MembershipStatus, fault: bool) returns (ok: bool)
      requires Valid()
      modifies this`members
      ensures Valid() && (Library(), ok) == Spec.SetStatus(old(Library()), member, status, fault)
    {
      ok := !fault && member in members;
      if ok { members := members[member := status]; }
    }

    method Start()
      modifies this`subscribed
      ensures Library() == old(Library()).(subscribed := true)
    {
      if subscribed { return; }
      subscribed := true;
    }

    method Stop()
      modifies this`subscribed
      ensures Library() == old(Library()).(subscribed := false)
    {
      if !subscribed { return; }
      subscribed := false;
    }
  }
}
