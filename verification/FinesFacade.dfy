/** The fines facade: assessing overdue loans, suspending members whose unpaid fines reach
    the threshold, and taking payments.

    The first failing call of an operation ends it, so one number tells every pattern of
    faults: how many calls succeed before one fails. */
module FinesFacade {
  import opened Domain
  import opened FineMoney
  import opened FineTables
  import opened SortedIds

  datatype FineEvent =
    | FineAssessed(fineId: FineId, member: MemberId, loanId: LoanId, amount: int, assessedAt: int)
    | MemberAutoSuspended(suspended: MemberId, total: int, threshold: int, at: int)

  datatype Config = Config(rate: int, threshold: int)

  /** Fines, standings and published events. */
  datatype Accounts = Accounts(fines: Fines, members: map<MemberId, MembershipStatus>, log: seq<FineEvent>)

  // ---------------------------------------------------------------- flat specification

  function AssessedEvent(f: Fine): FineEvent {
    FineAssessed(f.id, f.member, f.loanId, f.amount, f.assessedAt)
  }

  /** How often a fine was announced, and a member's suspension. */
  function Announcements(log: seq<FineEvent>, id: FineId): nat {
    if log == [] then 0
    else Announcements(log[..|log| - 1], id) +
         if log[|log| - 1].FineAssessed? && log[|log| - 1].fineId == id then 1 else 0
  }

  function SuspensionsOf(log: seq<FineEvent>, m: MemberId): nat {
    if log == [] then 0
    else SuspensionsOf(log[..|log| - 1], m) +
         if log[|log| - 1].MemberAutoSuspended? && log[|log| - 1].suspended == m then 1 else 0
  }

  /** The unpaid total as the service computes it. */
  ghost function UnpaidTotalOf(t: Fines, m: MemberId): int { Wrap64(Owed(t, m)) }

  /** The run flips exactly the judged members that were not suspended and now owe at least
      the threshold. */
  ghost predicate Flips(a: Accounts, b: Accounts, judged: set<MemberId>, m: MemberId, cfg: Config) {
    m in judged && m in a.members && !a.members[m].Suspended? && UnpaidTotalOf(b.fines, m) >= cfg.threshold
  }

  ghost predicate Judged(a: Accounts, b: Accounts, judged: set<MemberId>, cfg: Config) {
    && b.members.Keys == a.members.Keys
    && forall m | m in a.members :: b.members[m] == if Flips(a, b, judged, m, cfg) then Suspended else a.members[m]
  }

  /** What a new event may say. */
  ghost predicate EventHolds(a: Accounts, b: Accounts, judged: set<MemberId>, cfg: Config, now: int, e: FineEvent) {
    match e
    case FineAssessed(id, _, _, _, _) => id in b.fines && id !in a.fines && e == AssessedEvent(b.fines[id])
    case MemberAutoSuspended(m, total, threshold, at) =>
      Flips(a, b, judged, m, cfg) && total == UnpaidTotalOf(b.fines, m) && threshold == cfg.threshold && at == now
  }

  /** Every new fine and every flip is announced exactly once, truthfully, and nothing else
      is published. */
  ghost predicate Published(a: Accounts, b: Accounts, judged: set<MemberId>, cfg: Config, now: int) {
    && |a.log| <= |b.log| && b.log[..|a.log|] == a.log
    && (forall i | |a.log| <= i < |b.log| :: EventHolds(a, b, judged, cfg, now, b.log[i]))
    && (forall id ::
          Announcements(b.log, id) == Announcements(a.log, id) + if id in b.fines && id !in a.fines then 1 else 0)
    && (forall m :: SuspensionsOf(b.log, m) == SuspensionsOf(a.log, m) + if Flips(a, b, judged, m, cfg) then 1 else 0)
  }

  /** The batch, said flatly: scope is fined, judged members are judged, all is announced. */
  ghost predicate Flat(
    a: Accounts, b: Accounts, loans: map<LoanId, Loan>, scope: set<LoanId>, judged: set<MemberId>, cfg: Config,
    now: int)
  {
    && Fined(a.fines, b.fines, loans, scope, now, cfg.rate)
    && Judged(a, b, judged, cfg)
    && Published(a, b, judged, cfg, now)
  }

  lemma FlatNothing(a: Accounts, loans: map<LoanId, Loan>, cfg: Config, now: int)
    ensures Flat(a, a, loans, {}, {}, cfg, now)
  {
  }

  lemma FineAnnounced(a: Accounts, b: Accounts, f: Fine, cfg: Config, now: int)
    requires Published(a, b, {}, cfg, now) && f.id !in b.fines && f.id !in a.fines
    ensures Published(a, Accounts(b.fines[f.id := f], b.members, b.log + [AssessedEvent(f)]), {}, cfg, now)
  {
  }

  /** Announcing one more new fine. */
  lemma FlatFine(a: Accounts, b: Accounts, loans: map<LoanId, Loan>, scope: set<LoanId>, f: Fine, cfg: Config, now: int)
    requires Flat(a, b, loans, scope, {}, cfg, now)
    requires f.loanId in loans && !FinedIn(b.fines, f.loanId) && f.id !in b.fines
    requires FinesLoan(f, loans[f.loanId], now, cfg.rate)
    ensures var c := Accounts(b.fines[f.id := f], b.members, b.log + [AssessedEvent(f)]);
      Flat(a, c, loans, scope + {f.loanId}, {}, cfg, now)
  {
    FinedOneMore(a.fines, b.fines, loans, scope, f, now, cfg.rate);
    FineAnnounced(a, b, f, cfg, now);
  }

  lemma FlatFineAlready(
    a: Accounts, b: Accounts, loans: map<LoanId, Loan>, scope: set<LoanId>, l: LoanId, cfg: Config, now: int)
    requires Flat(a, b, loans, scope, {}, cfg, now) && l in loans && FinedIn(b.fines, l)
    ensures Flat(a, b, loans, scope + {l}, {}, cfg, now)
  {
  }

  lemma SuspensionAnnounced(a: Accounts, b: Accounts, m: MemberId, cfg: Config, now: int)
    requires Published(a, b, {}, cfg, now) && Judged(a, b, {}, cfg) && m in b.members && !b.members[m].Suspended?
    requires UnpaidTotalOf(b.fines, m) >= cfg.threshold
    ensures var c := Accounts(b.fines, b.members[m := Suspended],
                              b.log + [MemberAutoSuspended(m, UnpaidTotalOf(b.fines, m), cfg.threshold, now)]);
            Published(a, c, {m}, cfg, now)
  {
    var c := Accounts(b.fines, b.members[m := Suspended],
                      b.log + [MemberAutoSuspended(m, UnpaidTotalOf(b.fines, m), cfg.threshold, now)]);
    assert c.log[..|b.log|] == b.log;
    assert c.log[..|a.log|] == b.log[..|a.log|];
    assert Flips(a, c, {m}, m, cfg);
    forall i | |a.log| <= i < |c.log| ensures EventHolds(a, c, {m}, cfg, now, c.log[i]) {
      if i < |b.log| { assert EventHolds(a, b, {}, cfg, now, b.log[i]); }
    }
  }

  lemma NoSuspension(a: Accounts, b: Accounts, m: MemberId, cfg: Config, now: int)
    requires Published(a, b, {}, cfg, now) && Judged(a, b, {}, cfg)
    requires m in b.members && (UnpaidTotalOf(b.fines, m) < cfg.threshold || b.members[m].Suspended?)
    ensures Published(a, b, {m}, cfg, now) && Judged(a, b, {m}, cfg)
  {
  }

  /** The state after the threshold check of a member. */
  ghost function AfterJudging(b: Accounts, m: MemberId, cfg: Config, now: int): Accounts
    requires m in b.members
  {
    var total := UnpaidTotalOf(b.fines, m);
    if total < cfg.threshold || b.members[m].Suspended? then b
    else Accounts(b.fines, b.members[m := Suspended], b.log + [MemberAutoSuspended(m, total, cfg.threshold, now)])
  }

  /** Judging the member whose loans were just fined. */
  lemma FlatJudge(
    a: Accounts, b: Accounts, loans: map<LoanId, Loan>, scope: set<LoanId>, m: MemberId, cfg: Config, now: int)
    requires Flat(a, b, loans, scope, {}, cfg, now) && m in b.members
    ensures Flat(a, AfterJudging(b, m, cfg, now), loans, scope, {m}, cfg, now)
  {
    if UnpaidTotalOf(b.fines, m) < cfg.threshold || b.members[m].Suspended? {
      NoSuspension(a, b, m, cfg, now);
    } else {
      SuspensionAnnounced(a, b, m, cfg, now);
    }
  }

  // ---------------------------------------------------------------- in the fields

  /** Every fine that was not there is an unpaid one for an open loan past its due date, to its
      borrower and for the days times the rate, and was announced as it is. */
  ghost predicate OnlyOverdueFined(a: Accounts, b: Accounts, loans: map<LoanId, Loan>, now: int, rate: int) {
    && (forall k | k in a.fines :: k in b.fines && b.fines[k] == a.fines[k])
    && (forall k | k in b.fines && k !in a.fines ::
          && b.fines[k].loanId in loans && loans[b.fines[k].loanId].returnedAt == None
          && loans[b.fines[k].loanId].dueDate < now
          && b.fines[k] == Fine(k, loans[b.fines[k].loanId].member, b.fines[k].loanId,
                                FineAmount(loans[b.fines[k].loanId].dueDate, now, rate), now, None))
  }

  /** Whoever was flipped was not suspended, had an open loan past its due date, and owes at least
      the threshold now; nobody else's standing changed. */
  ghost predicate OnlyOwersFlipped(a: Accounts, b: Accounts, loans: map<LoanId, Loan>, cfg: Config, now: int) {
    && b.members.Keys == a.members.Keys
    && (forall m | m in a.members && b.members[m] != a.members[m] ::
          && a.members[m] == Active && b.members[m] == Suspended && Wrap64(Owed(b.fines, m)) >= cfg.threshold
          && exists l :: IsLate(loans, l, m, now))
  }

  ghost predicate IsLate(loans: map<LoanId, Loan>, l: LoanId, m: MemberId, now: int) {
    l in loans && loans[l].member == m && loans[l].returnedAt == None && loans[l].dueDate < now
  }

  /** New events, field by field. */
  ghost predicate SaidSo(a: Accounts, b: Accounts, cfg: Config, now: int) {
    && |a.log| <= |b.log| && b.log[..|a.log|] == a.log
    && (forall i | |a.log| <= i < |b.log| ::
          match b.log[i]
          case FineAssessed(id, member, loanId, amount, at) =>
            id in b.fines && id !in a.fines && b.fines[id] == Fine(id, member, loanId, amount, at, None)
          case MemberAutoSuspended(m, total, threshold, at) =>
            && m in a.members && m in b.members && a.members[m] == Active && b.members[m] == Suspended
            && total == Wrap64(Owed(b.fines, m)) && threshold == cfg.threshold && at == now)
  }

  lemma FlatFines(a: Accounts, b: Accounts, loans: map<LoanId, Loan>, scope: set<LoanId>, judged: set<MemberId>,
                  cfg: Config, now: int)
    requires Flat(a, b, loans, scope, judged, cfg, now) && scope <= OverdueLoans(loans, now)
    requires OnePerLoan(b.fines) && forall l | l in loans :: loans[l].id == l
    ensures OnlyOverdueFined(a, b, loans, now, cfg.rate) && SaidSo(a, b, cfg, now)
    ensures forall l | l in scope :: exists k :: k in b.fines && b.fines[k].loanId == l
  {
    forall i | |a.log| <= i < |b.log|
      ensures match b.log[i]
        case FineAssessed(id, member, loanId, amount, at) =>
          id in b.fines && id !in a.fines && b.fines[id] == Fine(id, member, loanId, amount, at, None)
        case MemberAutoSuspended(m, total, threshold, at) =>
          && m in a.members && m in b.members && a.members[m] == Active && b.members[m] == Suspended
          && total == Wrap64(Owed(b.fines, m)) && threshold == cfg.threshold && at == now
    {
      assert EventHolds(a, b, judged, cfg, now, b.log[i]);
    }
  }

  lemma FlatFlips(a: Accounts, b: Accounts, loans: map<LoanId, Loan>, scope: set<LoanId>, judged: set<MemberId>,
                  cfg: Config, now: int)
    requires Flat(a, b, loans, scope, judged, cfg, now) && judged <= OverdueMembers(loans, now)
    ensures OnlyOwersFlipped(a, b, loans, cfg, now)
  {
    forall m | m in a.members && b.members[m] != a.members[m] ensures exists l :: IsLate(loans, l, m, now) {
      var l :| l in loans && Overdue(loans[l], now) && loans[l].member == m;
      assert IsLate(loans, l, m, now);
    }
  }

  ghost predicate OnlyFinesOf(t: Fines, t': Fines, m: MemberId) {
    forall k | k in t' && k !in t :: t'[k].member == m
  }

  ghost predicate LateFined(t: Fines, loans: map<LoanId, Loan>, m: MemberId, now: int) {
    forall l | IsLate(loans, l, m, now) :: exists k :: k in t && t[k].loanId == l
  }

  lemma AssessedInTheFields(a: Accounts, b: Accounts, loans: map<LoanId, Loan>, scope: set<LoanId>, m: MemberId,
                            cfg: Config, now: int)
    requires Flat(a, b, loans, scope, {}, cfg, now) && scope <= OverdueOf(loans, m, now)
    requires OnePerLoan(b.fines) && forall l | l in loans :: loans[l].id == l
    ensures OnlyOverdueFined(a, b, loans, now, cfg.rate) && SaidSo(a, b, cfg, now)
    ensures OnlyFinesOf(a.fines, b.fines, m)
    ensures scope == OverdueOf(loans, m, now) ==> LateFined(b.fines, loans, m, now)
  {
    FlatFines(a, b, loans, scope, {}, cfg, now);
    if scope == OverdueOf(loans, m, now) {
      forall l | IsLate(loans, l, m, now) ensures exists k :: k in b.fines && b.fines[k].loanId == l {
        assert l in scope;
      }
    }
  }

  /** The batch complete: every open loan past its due date has a fine, and whoever has one and owes
      at least the threshold is suspended. */
  lemma FlatIsComplete(a: Accounts, b: Accounts, loans: map<LoanId, Loan>, scope: set<LoanId>, judged: set<MemberId>,
                       cfg: Config, now: int)
    requires Flat(a, b, loans, scope, judged, cfg, now)
    requires OverdueLoans(loans, now) <= scope && OverdueMembers(loans, now) <= judged
    ensures forall l, m :: IsLate(loans, l, m, now) ==> exists k :: k in b.fines && b.fines[k].loanId == l
    ensures forall l, m :: IsLate(loans, l, m, now) && m in a.members && Wrap64(Owed(b.fines, m)) >= cfg.threshold ==>
      m in b.members && b.members[m] == Suspended
  {
    forall l, m | IsLate(loans, l, m, now) ensures FinedIn(b.fines, l) && m in judged {
      assert l in OverdueLoans(loans, now) && m in OverdueMembers(loans, now);
    }
  }

  // ---------------------------------------------------------------- one member after another

  /** The second part fines and judges a member the first part did not. */
  ghost predicate NextMember(a: Accounts, b: Accounts, c: Accounts, loans: map<LoanId, Loan>,
                             s1: set<LoanId>, j1: set<MemberId>, s2: set<LoanId>, j2: set<MemberId>, m: MemberId,
                             cfg: Config, now: int)
  {
    && Flat(a, b, loans, s1, j1, cfg, now) && Flat(b, c, loans, s2, j2, cfg, now)
    && m !in j1 && j2 <= {m} && forall l | l in s2 :: loans[l].member == m
  }

  lemma EarlierTotalsStand(a: Accounts, b: Accounts, c: Accounts, loans: map<LoanId, Loan>,
                           s1: set<LoanId>, j1: set<MemberId>, s2: set<LoanId>, j2: set<MemberId>, m: MemberId,
                           cfg: Config, now: int, x: MemberId)
    requires NextMember(a, b, c, loans, s1, j1, s2, j2, m, cfg, now) && x != m
    ensures UnpaidTotalOf(c.fines, x) == UnpaidTotalOf(b.fines, x)
  {
    OthersUnaffected(b.fines, c.fines, loans, s2, now, cfg.rate, x);
  }

  lemma FlipsCompose(a: Accounts, b: Accounts, c: Accounts, loans: map<LoanId, Loan>,
                     s1: set<LoanId>, j1: set<MemberId>, s2: set<LoanId>, j2: set<MemberId>, m: MemberId,
                     cfg: Config, now: int, x: MemberId)
    requires NextMember(a, b, c, loans, s1, j1, s2, j2, m, cfg, now)
    ensures Flips(a, c, j1 + j2, x, cfg) <==> Flips(a, b, j1, x, cfg) || Flips(b, c, j2, x, cfg)
    ensures !(Flips(a, b, j1, x, cfg) && Flips(b, c, j2, x, cfg))
  {
    if x != m { EarlierTotalsStand(a, b, c, loans, s1, j1, s2, j2, m, cfg, now, x); }
  }

  lemma JudgedThenJudged(a: Accounts, b: Accounts, c: Accounts, loans: map<LoanId, Loan>,
                         s1: set<LoanId>, j1: set<MemberId>, s2: set<LoanId>, j2: set<MemberId>, m: MemberId,
                         cfg: Config, now: int)
    requires NextMember(a, b, c, loans, s1, j1, s2, j2, m, cfg, now)
    ensures Judged(a, c, j1 + j2, cfg)
  {
    forall x | x in a.members
      ensures c.members[x] == if Flips(a, c, j1 + j2, x, cfg) then Suspended else a.members[x]
    {
      FlipsCompose(a, b, c, loans, s1, j1, s2, j2, m, cfg, now, x);
    }
  }

  lemma EarlierEventHolds(a: Accounts, b: Accounts, c: Accounts, loans: map<LoanId, Loan>,
                          s1: set<LoanId>, j1: set<MemberId>, s2: set<LoanId>, j2: set<MemberId>, m: MemberId,
                          cfg: Config, now: int, e: FineEvent)
    requires NextMember(a, b, c, loans, s1, j1, s2, j2, m, cfg, now) && EventHolds(a, b, j1, cfg, now, e)
    ensures EventHolds(a, c, j1 + j2, cfg, now, e)
  {
    match e
    case FineAssessed(_, _, _, _, _) =>
    case MemberAutoSuspended(x, _, _, _) =>
      FlipsCompose(a, b, c, loans, s1, j1, s2, j2, m, cfg, now, x);
      EarlierTotalsStand(a, b, c, loans, s1, j1, s2, j2, m, cfg, now, x);
  }

  lemma LaterEventHolds(a: Accounts, b: Accounts, c: Accounts, loans: map<LoanId, Loan>,
                        s1: set<LoanId>, j1: set<MemberId>, s2: set<LoanId>, j2: set<MemberId>, m: MemberId,
                        cfg: Config, now: int, e: FineEvent)
    requires NextMember(a, b, c, loans, s1, j1, s2, j2, m, cfg, now) && EventHolds(b, c, j2, cfg, now, e)
    ensures EventHolds(a, c, j1 + j2, cfg, now, e)
  {
  }

  lemma PublishedThenPublished(a: Accounts, b: Accounts, c: Accounts, loans: map<LoanId, Loan>,
                               s1: set<LoanId>, j1: set<MemberId>, s2: set<LoanId>, j2: set<MemberId>, m: MemberId,
                               cfg: Config, now: int)
    requires NextMember(a, b, c, loans, s1, j1, s2, j2, m, cfg, now)
    ensures Published(a, c, j1 + j2, cfg, now)
  {
    assert c.log[..|a.log|] == c.log[..|b.log|][..|a.log|];
    forall i | |a.log| <= i < |c.log| ensures EventHolds(a, c, j1 + j2, cfg, now, c.log[i]) {
      if i < |b.log| {
        assert c.log[i] == c.log[..|b.log|][i];
        EarlierEventHolds(a, b, c, loans, s1, j1, s2, j2, m, cfg, now, b.log[i]);
      } else {
        LaterEventHolds(a, b, c, loans, s1, j1, s2, j2, m, cfg, now, c.log[i]);
      }
    }
    forall x
      ensures SuspensionsOf(c.log, x) == SuspensionsOf(a.log, x) + if Flips(a, c, j1 + j2, x, cfg) then 1 else 0
    {
      FlipsCompose(a, b, c, loans, s1, j1, s2, j2, m, cfg, now, x);
    }
  }

  /** Two parts of the batch make one. */
  lemma FlatThenFlat(a: Accounts, b: Accounts, c: Accounts, loans: map<LoanId, Loan>,
                     s1: set<LoanId>, j1: set<MemberId>, s2: set<LoanId>, j2: set<MemberId>, m: MemberId,
                     cfg: Config, now: int)
    requires NextMember(a, b, c, loans, s1, j1, s2, j2, m, cfg, now)
    ensures Flat(a, c, loans, s1 + s2, j1 + j2, cfg, now)
  {
    FinedThenFined(a.fines, b.fines, c.fines, loans, s1, s2, now, cfg.rate);
    JudgedThenJudged(a, b, c, loans, s1, j1, s2, j2, m, cfg, now);
    PublishedThenPublished(a, b, c, loans, s1, j1, s2, j2, m, cfg, now);
  }

  /** Idempotence: the batch run again at once changes nothing and publishes nothing. */
  lemma SecondRunChangesNothing(a: Accounts, b: Accounts, c: Accounts, loans: map<LoanId, Loan>,
                                scope: set<LoanId>, judged: set<MemberId>, cfg: Config, now: int)
    requires Flat(a, b, loans, scope, judged, cfg, now) && Flat(b, c, loans, scope, judged, cfg, now)
    ensures c == b
  {
    FiningAgain(b.fines, c.fines, loans, scope, now, cfg.rate);
    forall m ensures !Flips(b, c, judged, m, cfg) {
      if m in a.members { assert b.members[m] == if Flips(a, b, judged, m, cfg) then Suspended else a.members[m]; }
    }
    assert |c.log| > |b.log| ==> EventHolds(b, c, judged, cfg, now, c.log[|b.log|]);
    assert c.log == c.log[..|b.log|];
  }

  // ---------------------------------------------------------------- listings

  /** The position of the first loan of m, or |loans|. */
  function FirstAt(loans: seq<Loan>, m: MemberId): nat {
    if loans == [] then 0
    else
      var k := FirstAt(loans[..|loans| - 1], m);
      if k < |loans| - 1 || loans[|loans| - 1].member == m then k else k + 1
  }

  lemma {:induction false} FirstAtIsFirst(loans: seq<Loan>, m: MemberId)
    ensures FirstAt(loans, m) <= |loans|
    ensures FirstAt(loans, m) < |loans| ==> loans[FirstAt(loans, m)].member == m
    ensures forall k | 0 <= k < FirstAt(loans, m) :: loans[k].member != m
  {
    if loans != [] { FirstAtIsFirst(loans[..|loans| - 1], m); }
  }

  /** First-seen members of a listing: each member of it once, in the order of first
      appearance. */
  ghost predicate FirstSeen(ids: seq<MemberId>, loans: seq<Loan>) {
    && (forall m :: m in ids <==> FirstAt(loans, m) < |loans|)
    && (forall i, j | 0 <= i < j < |ids| :: FirstAt(loans, ids[i]) < FirstAt(loans, ids[j]))
  }

  function Distinct(loans: seq<Loan>): seq<MemberId> {
    if loans == [] then []
    else
      var ids, m := Distinct(loans[..|loans| - 1]), loans[|loans| - 1].member;
      if m in ids then ids else ids + [m]
  }

  method DistinctMemberIds(loans: seq<Loan>) returns (ids: seq<MemberId>)
    ensures ids == Distinct(loans)
  {
    var seen: set<MemberId> := {};
    ids := [];
    for n := 0 to |loans|
      invariant seen == (set m | m in ids)
      invariant ids == Distinct(loans[..n])
    {
      assert loans[..n + 1][..n] == loans[..n];
      var m := loans[n].member;
      if m !in seen {
        seen := seen + {m};
        ids := ids + [m];
      }
    }
    assert loans[..|loans|] == loans;
  }

  lemma {:induction false} DistinctIsFirstSeen(loans: seq<Loan>)
    ensures FirstSeen(Distinct(loans), loans)
  {
    if loans != [] {
      var rest := loans[..|loans| - 1];
      var ids := Distinct(rest);
      DistinctIsFirstSeen(rest);
      forall m ensures FirstAt(rest, m) <= |rest| && (m in ids ==> FirstAt(loans, m) == FirstAt(rest, m)) {
        FirstAtIsFirst(rest, m);
      }
      forall i | 0 <= i < |ids| ensures FirstAt(loans, ids[i]) == FirstAt(rest, ids[i]) < |rest| {
        assert ids[i] in ids;
      }
    }
  }

  function OverdueLoans(loans: map<LoanId, Loan>, now: int): set<LoanId> {
    set l | l in loans && Overdue(loans[l], now)
  }

  function OverdueOf(loans: map<LoanId, Loan>, m: MemberId, now: int): set<LoanId> {
    set l | l in loans && loans[l].member == m && Overdue(loans[l], now)
  }

  function OverdueMembers(loans: map<LoanId, Loan>, now: int): set<MemberId> {
    set l | l in loans && Overdue(loans[l], now) :: loans[l].member
  }

  /** q lists exactly the chosen loans, by ascending id. */
  ghost predicate Lists(q: seq<Loan>, loans: map<LoanId, Loan>, ids: set<LoanId>) {
    && (forall i, j | 0 <= i < j < |q| :: q[i].id < q[j].id)
    && (forall loan :: loan in q <==> loan.id in ids && loan.id in loans && loans[loan.id] == loan)
  }

  /** snapshotLoans: the stored loans with the given ids, by ascending id. */
  method SnapshotLoans(loans: map<LoanId, Loan>, ids: set<LoanId>) returns (q: seq<Loan>)
    requires ids <= loans.Keys && forall l | l in loans :: loans[l].id == l
    ensures Lists(q, loans, ids)
  {
    var sorted := Sort(ids);
    q := [];
    for i := 0 to |sorted|
      invariant |q| == i && forall j | 0 <= j < i :: sorted[j] in ids && q[j] == loans[sorted[j]]
    {
      assert sorted[i] in sorted;
      q := q + [loans[sorted[i]]];
    }
    forall loan ensures loan in q <==> loan.id in ids && loan.id in loans && loans[loan.id] == loan {
      if loan.id in ids && loans[loan.id] == loan {
        assert loan.id in sorted;
        var j :| 0 <= j < |sorted| && sorted[j] == loan.id;
        assert q[j] == loan;
      }
    }
  }

  // ---------------------------------------------------------------- the books against the log

  /** What the log announces to a member: the amounts of the FineAssessed events. */
  function AnnouncedTo(log: seq<FineEvent>, m: MemberId): int {
    if log == [] then 0
    else
      var last := log[|log| - 1];
      AnnouncedTo(log[..|log| - 1], m) + if last.FineAssessed? && last.member == m then last.amount else 0
  }

  /** Every fine was announced once, and every announcement is of a fine. */
  ghost predicate Booked(t: Fines, log: seq<FineEvent>) {
    && (forall id :: Announcements(log, id) == if id in t then 1 else 0)
    && (forall e | e in log && e.FineAssessed? :: e.fineId in t && e == AssessedEvent(t[e.fineId]))
  }

  lemma {:induction false} AnnouncedAtLeastOnce(log: seq<FineEvent>, e: FineEvent)
    requires e in log && e.FineAssessed?
    ensures Announcements(log, e.fineId) >= 1
  {
    var last, rest := log[|log| - 1], log[..|log| - 1];
    if last != e { AnnouncedAtLeastOnce(rest, e); }
  }

  /** The books without the fine announced last. */
  lemma BookedBefore(t: Fines, log: seq<FineEvent>)
    requires Booked(t, log) && log != []
    ensures var last, rest := log[|log| - 1], log[..|log| - 1];
      if last.FineAssessed? then last.fineId in t && Booked(t - {last.fineId}, rest) else Booked(t, rest)
  {
    var last, rest := log[|log| - 1], log[..|log| - 1];
    assert forall e | e in rest :: e in log;
    forall id ensures Announcements(log, id) ==
      Announcements(rest, id) + if last.FineAssessed? && last.fineId == id then 1 else 0
    {
    }
    if last.FineAssessed? {
      assert last in log && Announcements(rest, last.fineId) == 0;
      forall e | e in rest && e.FineAssessed? ensures e.fineId != last.fineId {
        AnnouncedAtLeastOnce(rest, e);
      }
    }
  }

  lemma TakingOut(t: Fines, id: FineId, m: MemberId)
    requires id in t
    ensures Assessed(t, m) == Assessed(t - {id}, m) + if t[id].member == m then t[id].amount else 0
  {
    var rest := t - {id};
    SumAgrees(t, rest, FinesOf(rest, m));
    if t[id].member == m {
      SumTakesAny(t, FinesOf(t, m), id);
      assert FinesOf(t, m) - {id} == FinesOf(rest, m);
    } else {
      assert FinesOf(t, m) == FinesOf(rest, m);
    }
  }

  lemma {:induction false} AnnouncedIsAssessed(t: Fines, log: seq<FineEvent>, m: MemberId)
    requires Booked(t, log)
    ensures AnnouncedTo(log, m) == Assessed(t, m)
    decreases |log|
  {
    if log == [] {
      forall id ensures id !in t { assert Announcements(log, id) == 0; }
      assert FinesOf(t, m) == {};
    } else {
      var last, rest := log[|log| - 1], log[..|log| - 1];
      BookedBefore(t, log);
      if last.FineAssessed? {
        assert last in log;
        AnnouncedIsAssessed(t - {last.fineId}, rest, m);
        TakingOut(t, last.fineId, m);
      } else {
        AnnouncedIsAssessed(t, rest, m);
      }
    }
  }

  /** Conservation: the fines announced to a member add up to what the member paid and owes. */
  lemma AnnouncedIsPaidOrOwed(t: Fines, log: seq<FineEvent>, m: MemberId)
    requires Booked(t, log)
    ensures AnnouncedTo(log, m) == Paid(t, m) + Owed(t, m)
  {
    AnnouncedIsAssessed(t, log, m);
    MoneyIsConserved(t, m);
  }

  lemma FlatKeepsBooks(a: Accounts, b: Accounts, loans: map<LoanId, Loan>,
                       scope: set<LoanId>, judged: set<MemberId>, cfg: Config, now: int)
    requires Booked(a.fines, a.log) && Flat(a, b, loans, scope, judged, cfg, now)
    ensures Booked(b.fines, b.log)
  {
    forall e | e in b.log && e.FineAssessed? ensures e.fineId in b.fines && e == AssessedEvent(b.fines[e.fineId]) {
      var i :| 0 <= i < |b.log| && b.log[i] == e;
      if i < |a.log| { assert b.log[..|a.log|][i] == e; }
    }
  }

  lemma PaymentKeepsBooks(t: Fines, t': Fines, log: seq<FineEvent>, id: FineId, at: int)
    requires Booked(t, log) && PaysFine(t, t', id, at)
    ensures Booked(t', log)
  {
  }

  /** One operation: a batch or assessment, complete or cut short by a fault, or a payment. */
  ghost predicate Stepped(a: Accounts, b: Accounts) {
    || (exists loans, scope, judged, cfg, now :: Flat(a, b, loans, scope, judged, cfg, now))
    || (b.log == a.log && exists id, at :: PaysFine(a.fines, b.fines, id, at))
    || (b.log == a.log && b.fines == a.fines)
  }

  ghost predicate Sound(a: Accounts) {
    OnePerLoan(a.fines) && Booked(a.fines, a.log)
  }

  lemma StepKeeps(a: Accounts, b: Accounts)
    requires Sound(a) && Stepped(a, b)
    ensures Sound(b) && Evolves(a.fines, b.fines)
  {
    if loans, scope, judged, cfg, now :| Flat(a, b, loans, scope, judged, cfg, now) {
      FlatKeepsBooks(a, b, loans, scope, judged, cfg, now);
    } else if b.fines != a.fines {
      var id, at :| PaysFine(a.fines, b.fines, id, at);
      PaymentKeepsBooks(a.fines, b.fines, a.log, id, at);
    }
  }

  ghost predicate IsRun(run: seq<Accounts>) {
    run != [] && Sound(run[0]) && forall i | 0 < i < |run| :: Stepped(run[i - 1], run[i])
  }

  lemma {:induction false} RunEvolves(run: seq<Accounts>, n: nat)
    requires IsRun(run) && n < |run|
    ensures Sound(run[n]) && Evolves(run[0].fines, run[n].fines)
  {
    if n > 0 {
      RunEvolves(run, n - 1);
      StepKeeps(run[n - 1], run[n]);
      EvolvesTransitive(run[0].fines, run[n - 1].fines, run[n].fines);
    }
  }

  /** Over every run of operations, at every point: at most one fine a loan, fines only ever
      get paid, and for every member what the log announces is what was assessed, and that is
      what was paid plus what is owed. */
  lemma RunsConserve(run: seq<Accounts>, n: nat, m: MemberId)
    requires IsRun(run) && n < |run|
    ensures OnePerLoan(run[n].fines) && Evolves(run[0].fines, run[n].fines)
    ensures Assessed(run[n].fines, m) == Paid(run[n].fines, m) + Owed(run[n].fines, m)
    ensures AnnouncedTo(run[n].log, m) == Assessed(run[n].fines, m)
  {
    RunEvolves(run, n);
    MoneyIsConserved(run[n].fines, m);
    AnnouncedIsAssessed(run[n].fines, run[n].log, m);
  }

  // ---------------------------------------------------------------- the facade

  datatype PayResult = PaidFine(fine: Fine) | FineNotFound | FineAlreadyPaid | PayFailed

  datatype Request = AssessRequest(m: MemberId, now: int) | BatchRequest(now: int) | PayRequest(id: FineId, now: int)

  class Facade {
    var fines: Fines
    var members: map<MemberId, MembershipStatus>
    var log: seq<FineEvent>
    var loans: map<LoanId, Loan>
    var idSource: nat
    var faultIn: Option<nat>
    const cfg: Config

    ghost function State(): Accounts
      reads this
    {
      Accounts(fines, members, log)
    }

    ghost predicate Valid()
      reads this
    {
      OnePerLoan(fines) && (forall id | id in fines :: id < idSource) && (forall l | l in loans :: loans[l].id == l)
    }

    constructor (cfg: Config, loans: map<LoanId, Loan>, members: map<MemberId, MembershipStatus>)
      requires forall l | l in loans :: loans[l].id == l
      ensures Valid() && this.cfg == cfg && this.loans == loans && faultIn.None?
      ensures State() == Accounts(map[], members, []) && Booked(fines, log)
    {
      this.cfg, this.loans, this.members := cfg, loans, members;
      fines, log, idSource, faultIn := map[], [], 0, None;
    }

    /** One call to a collaborator that may fail. */
    method Call() returns (ok: bool)
      modifies this`faultIn
      ensures old(faultIn).None? ==> ok && faultIn.None?
    {
      match faultIn
      case None => ok := true;
      case Some(n) =>
        ok := n > 0;
        if ok { faultIn := Some(n - 1); }
    }

    method SaveFine(f: Fine) returns (ok: bool)
      modifies this`fines, this`faultIn
      ensures fines == if ok then old(fines)[f.id := f] else old(fines)
      ensures old(faultIn).None? ==> ok && faultIn.None?
    {
      ok := Call();
      if ok { fines := fines[f.id := f]; }
    }

    /** Scans the map in whatever order for a fine of the loan. */
    method FindFineByLoanId(l: LoanId) returns (ok: bool, found: Option<Fine>)
      modifies this`faultIn
      ensures old(faultIn).None? ==> ok && faultIn.None?
      ensures ok ==> (found.Some? <==> FinedIn(fines, l))
      ensures found.Some? ==> found.value in fines.Values && found.value.loanId == l
    {
      found := None;
      ok := Call();
      if !ok { return; }
      var left := fines.Keys;
      while left != {}
        invariant left <= fines.Keys && forall id | id in fines && id !in left :: fines[id].loanId != l
        decreases |left|
      {
        var id :| id in left;
        if fines[id].loanId == l { return ok, Some(fines[id]); }
        left := left - {id};
      }
    }

    method ListFinesForMember(m: MemberId) returns (ok: bool, out: seq<FineId>)
      modifies this`faultIn
      ensures old(faultIn).None? ==> ok && faultIn.None?
      ensures ok ==> Ascending(out) && forall id :: id in out <==> id in FinesOf(fines, m)
      ensures ok ==> forall id :: id in out <==> id in fines && fines[id].member == m
      ensures ok ==> forall i, j | 0 <= i < j < |out| :: out[i] < out[j]
    {
      out := [];
      ok := Call();
      if ok { out := Sort(FinesOf(fines, m)); }
    }

    method UnpaidTotal(m: MemberId) returns (ok: bool, total: int)
      modifies this`faultIn
      ensures old(faultIn).None? ==> ok && faultIn.None?
      ensures ok ==> total == UnpaidTotalOf(fines, m)
    {
      total := 0;
      var ids;
      ok, ids := ListFinesForMember(m);
      if ok { total := SumUnpaid(fines, ids, m); }
    }

    method BuildFine(loan: Loan, now: int) returns (f: Fine)
      requires Valid()
      modifies this`idSource
      ensures Valid() && FinesLoan(f, loan, now, cfg.rate) && f.id !in fines && f.id < idSource
    {
      f := Fine(idSource, loan.member, loan.id, FineAmount(loan.dueDate, now, cfg.rate), now, None);
      idSource := idSource + 1;
    }

    /** The body of the assessment loop for an overdue loan: look for a fine, and build,
        save and announce one if there is none. */
    method AssessLoan(loan: Loan, now: int, ghost start: Accounts, ghost scope: set<LoanId>)
      returns (ok: bool, fine: Option<Fine>)
      requires Valid() && Flat(start, State(), loans, scope, {}, cfg, now)
      requires loan.id in loans && loans[loan.id] == loan
      modifies this`fines, this`log, this`idSource, this`faultIn
      ensures Valid() && Flat(start, State(), loans, if ok then scope + {loan.id} else scope, {}, cfg, now)
      ensures old(faultIn).None? ==> ok && faultIn.None?
      ensures fines == if fine.Some? then old(fines)[fine.value.id := fine.value] else old(fines)
      ensures fine.Some? ==> ok && fine.value.id !in old(fines)
    {
      fine := None;
      var existing;
      ok, existing := FindFineByLoanId(loan.id);
      if !ok { return; }
      if existing.Some? {
        FlatFineAlready(start, State(), loans, scope, loan.id, cfg, now);
        return;
      }
      var f := BuildFine(loan, now);
      FlatFine(start, State(), loans, scope, f, cfg, now);
      ok := SaveFine(f);
      if !ok { return; }
      OnePerLoanExtends(old(fines), f);
      log := log + [AssessedEvent(f)];
      fine := Some(f);
    }

    /** The assessment loop over a member's loans. */
    method AssessEach(q: seq<Loan>, m: MemberId, now: int)
      returns (ok: bool, assessed: seq<Fine>, ghost scope: set<LoanId>)
      requires Valid() && Lists(q, loans, set l | l in loans && loans[l].member == m)
      modifies this`fines, this`log, this`idSource, this`faultIn
      ensures Valid() && Flat(old(State()), State(), loans, scope, {}, cfg, now)
      ensures scope <= OverdueOf(loans, m, now) && (ok ==> scope == OverdueOf(loans, m, now))
      ensures old(faultIn).None? ==> ok && faultIn.None?
      ensures ok ==> NewFines(old(fines), fines, assessed)
    {
      ok, assessed, scope := true, [], {};
      FlatNothing(State(), loans, cfg, now);
      for i := 0 to |q|
        invariant Valid() && ok
        invariant Flat(old(State()), State(), loans, scope, {}, cfg, now)
        invariant scope == OverdueAmong(q[..i], now) && (old(faultIn).None? ==> faultIn.None?)
        invariant NewFines(old(fines), fines, assessed)
      {
        assert q[i] in q;
        OverdueAmongGrows(q, i, now);
        OverdueAmongListed(q, i, loans, m, now);
        if Overdue(q[i], now) {
          var fine;
          ghost var before := fines;
          ok, fine := AssessLoan(q[i], now, old(State()), scope);
          if !ok { return ok, [], scope; }
          if fine.Some? {
            NewFineAdded(old(fines), before, assessed, fine.value);
            assessed := assessed + [fine.value];
          }
          scope := scope + {q[i].id};
        }
      }
      OverdueAmongAll(q, loans, m, now);
    }

    /** Fines the member's overdue loans that have no fine yet. On success scope is all of
        them; a fault stops midway, with everything so far fined and announced. In the fields: no
        loan that was returned or is not due yet is fined. */
    method AssessFinesFor(m: MemberId, now: int) returns (ok: bool, assessed: seq<Fine>, ghost scope: set<LoanId>)
      requires Valid()
      modifies this`fines, this`log, this`idSource, this`faultIn
      ensures Valid() && Flat(old(State()), State(), loans, scope, {}, cfg, now)
      ensures scope <= OverdueOf(loans, m, now)
      ensures ok ==> m in members && scope == OverdueOf(loans, m, now)
      ensures old(faultIn).None? ==> faultIn.None? && (ok <==> m in members)
      ensures ok ==> NewFines(old(fines), fines, assessed)
      ensures OnlyOverdueFined(old(State()), State(), loans, now, cfg.rate) && SaidSo(old(State()), State(), cfg, now)
      ensures OnlyFinesOf(old(fines), fines, m) && (ok ==> LateFined(fines, loans, m, now))
    {
      assessed, scope := [], {};
      FlatNothing(State(), loans, cfg, now);
      AssessedInTheFields(State(), State(), loans, {}, m, cfg, now);
      ok := Call();
      if !ok || m !in members { ok := false; return; }
      ok := Call();
      if !ok { return; }
      var q := SnapshotLoans(loans, set l | l in loans && loans[l].member == m);
      ok, assessed, scope := AssessEach(q, m, now);
      AssessedInTheFields(old(State()), State(), loans, scope, m, cfg, now);
    }

    method MaybeAutoSuspend(m: MemberId, now: int) returns (ok: bool)
      modifies this`members, this`log, this`faultIn
      ensures m in old(members) ==> State() == if ok then AfterJudging(old(State()), m, cfg, now) else old(State())
      ensures m !in old(members) ==> State() == old(State()) && (ok ==> UnpaidTotalOf(fines, m) < cfg.threshold)
      ensures old(faultIn).None? ==> faultIn.None? && (m in old(members) ==> ok)
      ensures ok && m in old(members) ==>
        members == if old(members)[m] == Active && Wrap64(Owed(fines, m)) >= cfg.threshold
                   then old(members)[m := Suspended] else old(members)
    {
      var total;
      ok, total := UnpaidTotal(m);
      if !ok || total < cfg.threshold { return; }
      ok := Call();
      if !ok || m !in members { return false; }
      if members[m].Suspended? { return; }
      ok := Call();
      if !ok { return; }
      ok := Call();
      if !ok { return; }
      members := members[m := Suspended];
      log := log + [MemberAutoSuspended(m, total, cfg.threshold, now)];
    }

    /** One round of the batch: assess the member, then judge them. */
    method ProcessMember(m: MemberId, now: int) returns (ok: bool, ghost fined: Accounts, ghost mine: set<LoanId>)
      requires Valid()
      modifies this`fines, this`members, this`log, this`idSource, this`faultIn
      ensures Valid() && Flat(old(State()), fined, loans, mine, {}, cfg, now) && mine <= OverdueOf(loans, m, now)
      ensures fined.members == old(members)
      ensures ok ==> m in old(members) && mine == OverdueOf(loans, m, now)
      ensures ok ==> State() == AfterJudging(fined, m, cfg, now)
      ensures !ok ==> State() == fined
      ensures old(faultIn).None? ==> faultIn.None? && (ok <==> m in old(members))
    {
      var assessed;
      ok, assessed, mine := AssessFinesFor(m, now);
      fined := State();
      if ok { ok := MaybeAutoSuspend(m, now); }
    }

    /** lending.ListOverdueLoans: the open loans due strictly before now, by ascending id. */
    method ListOverdueLoans(now: int) returns (ok: bool, overdue: seq<Loan>)
      requires Valid()
      modifies this`faultIn
      ensures old(faultIn).None? ==> ok && faultIn.None?
      ensures ok ==> Lists(overdue, loans, OverdueLoans(loans, now))
      ensures ok ==> forall loan :: loan in overdue <==>
        loan.id in loans && loans[loan.id] == loan && loan.returnedAt == None && loan.dueDate < now
      ensures ok ==> forall i, j | 0 <= i < j < |overdue| :: overdue[i].id < overdue[j].id
    {
      overdue := [];
      ok := Call();
      if !ok { return; }
      var all := SnapshotLoans(loans, loans.Keys);
      for i := 0 to |all|
        invariant ok && overdue == Filtered(all[..i], now)
      {
        assert all[..i + 1][..i] == all[..i];
        if all[i].returnedAt.Some? { continue; }
        if !(all[i].dueDate < now) { continue; }
        overdue := overdue + [all[i]];
      }
      assert all[..|all|] == all;
      FilteredLists(all, loans, now);
    }

    /** The loop of the batch, over members listed once each. */
    method ProcessMembers(ids: seq<MemberId>, now: int)
      returns (ok: bool, ghost scope: set<LoanId>, ghost judged: set<MemberId>)
      requires Valid() && forall i, j | 0 <= i < j < |ids| :: ids[i] != ids[j]
      modifies this`fines, this`members, this`log, this`idSource, this`faultIn
      ensures Valid() && Flat(old(State()), State(), loans, scope, judged, cfg, now)
      ensures scope <= OverdueOfAll(loans, ids, now) && judged <= Members(ids)
      ensures ok ==> scope == OverdueOfAll(loans, ids, now) && judged == Members(ids)
      ensures old(faultIn).None? ==> (ok <==> Members(ids) <= old(members).Keys)
    {
      ok, scope, judged := true, {}, {};
      FlatNothing(State(), loans, cfg, now);
      for i := 0 to |ids|
        invariant Valid() && ok
        invariant Flat(old(State()), State(), loans, scope, judged, cfg, now)
        invariant judged == Members(ids[..i]) && scope == OverdueOfAll(loans, ids[..i], now)
        invariant old(faultIn).None? ==> faultIn.None? && judged <= old(members).Keys
        invariant members.Keys == old(members).Keys
      {
        RoundSets(loans, ids, i, now);
        ghost var before := State();
        ghost var fined; ghost var mine;
        ok, fined, mine := ProcessMember(ids[i], now);
        RoundComposes(old(State()), before, fined, loans, scope, judged, mine, ids[i], cfg, now, ok);
        scope := scope + mine;
        if !ok { return; }
        judged := judged + {ids[i]};
      }
      assert ids[..|ids|] == ids;
    }

    /** The batch. On success it is flat over every overdue loan and its member; a fault or
        an unregistered borrower stops it midway with what was done so far still flat. */
    method ProcessOverdueLoans(now: int) returns (ok: bool, ghost scope: set<LoanId>, ghost judged: set<MemberId>)
      requires Valid()
      modifies this`fines, this`members, this`log, this`idSource, this`faultIn
      ensures Valid() && Flat(old(State()), State(), loans, scope, judged, cfg, now)
      ensures scope <= OverdueLoans(loans, now) && judged <= OverdueMembers(loans, now)
      ensures ok ==> scope == OverdueLoans(loans, now) && judged == OverdueMembers(loans, now)
      ensures old(faultIn).None? ==> (ok <==> OverdueMembers(loans, now) <= old(members).Keys)
      ensures OnlyOverdueFined(old(State()), State(), loans, now, cfg.rate) && SaidSo(old(State()), State(), cfg, now)
      ensures OnlyOwersFlipped(old(State()), State(), loans, cfg, now)
      ensures ok ==> forall l, m :: IsLate(loans, l, m, now) ==> exists k :: k in fines && fines[k].loanId == l
      ensures ok ==> forall l, m ::
        IsLate(loans, l, m, now) && m in old(members) && Wrap64(Owed(fines, m)) >= cfg.threshold ==>
          m in members && members[m] == Suspended
    {
      scope, judged := {}, {};
      FlatNothing(State(), loans, cfg, now);
      FlatFines(State(), State(), loans, {}, {}, cfg, now);
      var overdue;
      ok, overdue := ListOverdueLoans(now);
      if !ok { return; }
      var ids := DistinctMemberIds(overdue);
      DistinctIsFirstSeen(overdue);
      MembersListed(ids, overdue, loans, now);
      ok, scope, judged := ProcessMembers(ids, now);
      FlatFines(old(State()), State(), loans, scope, judged, cfg, now);
      FlatFlips(old(State()), State(), loans, scope, judged, cfg, now);
      if ok { FlatIsComplete(old(State()), State(), loans, scope, judged, cfg, now); }
    }

    /** PayFine: an unpaid fine is paid at the current instant and nothing else changes. */
    method PayFine(id: FineId, now: int) returns (r: PayResult)
      requires Valid()
      modifies this`fines, this`faultIn
      ensures Valid()
      ensures match r
              case PaidFine(fine) =>
                && id in old(fines) && old(fines)[id].paidAt == None && fine == old(fines)[id].(paidAt := Some(now))
                && fines == old(fines)[id := fine]
              case FineNotFound => fines == old(fines) && id !in fines
              case FineAlreadyPaid => fines == old(fines) && id in fines && fines[id].paidAt != None
              case PayFailed => fines == old(fines) && old(faultIn).Some?
    {
      var ok := Call();
      if !ok { return PayFailed; }
      if id !in fines { return FineNotFound; }
      if fines[id].paidAt.Some? { return FineAlreadyPaid; }
      var paid := fines[id].(paidAt := Some(now));
      ok := SaveFine(paid);
      if !ok { return PayFailed; }
      r := PaidFine(paid);
    }

    method Serve(request: Request)
      requires Valid() && Booked(fines, log)
      modifies this`fines, this`members, this`log, this`idSource, this`faultIn
      ensures Valid() && Booked(fines, log) && Evolves(old(fines), fines)
    {
      ghost var before := State();
      match request
      case AssessRequest(m, now) => {
        var ok, assessed, scope := AssessFinesFor(m, now);
        FlatKeepsBooks(before, State(), loans, scope, {}, cfg, now);
      }
      case BatchRequest(now) => {
        var ok, scope, judged := ProcessOverdueLoans(now);
        FlatKeepsBooks(before, State(), loans, scope, judged, cfg, now);
      }
      case PayRequest(id, now) =>
        var r := PayFine(id, now);
        if r.PaidFine? { PaymentKeepsBooks(before.fines, fines, log, id, now); }
    }

    /** Any sequence of assessments, batches and payments, whatever fails: one fine a loan
        throughout, no fine gone or changed but by being paid, once, and for every member what
        the log announces is what was paid plus what is owed. */
    method Session(requests: seq<Request>)
      requires Valid() && Booked(fines, log)
      modifies this`fines, this`members, this`log, this`idSource, this`faultIn
      ensures Valid() && Booked(fines, log) && Evolves(old(fines), fines)
      ensures forall m :: AnnouncedTo(log, m) == Paid(fines, m) + Owed(fines, m)
    {
      for i := 0 to |requests|
        invariant Valid() && Booked(fines, log) && Evolves(old(fines), fines)
      {
        ghost var before := fines;
        Serve(requests[i]);
        EvolvesTransitive(old(fines), before, fines);
      }
      forall m ensures AnnouncedTo(log, m) == Paid(fines, m) + Owed(fines, m) {
        AnnouncedIsPaidOrOwed(fines, log, m);
      }
    }
  }

  lemma RoundComposes(start: Accounts, before: Accounts, fined: Accounts, loans: map<LoanId, Loan>,
                      scope: set<LoanId>, judged: set<MemberId>, mine: set<LoanId>, m: MemberId, cfg: Config,
                      now: int, ok: bool)
    requires Flat(start, before, loans, scope, judged, cfg, now) && Flat(before, fined, loans, mine, {}, cfg, now)
    requires m !in judged && mine <= OverdueOf(loans, m, now) && (ok ==> m in fined.members)
    ensures Flat(start, if ok then AfterJudging(fined, m, cfg, now) else fined, loans,
                 scope + mine, if ok then judged + {m} else judged, cfg, now)
  {
    if ok { RoundFinished(start, before, fined, loans, scope, judged, mine, m, cfg, now); }
    else { RoundCutShort(start, before, fined, loans, scope, judged, mine, m, cfg, now); }
  }

  lemma RoundFinished(start: Accounts, before: Accounts, fined: Accounts, loans: map<LoanId, Loan>,
                      scope: set<LoanId>, judged: set<MemberId>, mine: set<LoanId>, m: MemberId, cfg: Config, now: int)
    requires Flat(start, before, loans, scope, judged, cfg, now) && Flat(before, fined, loans, mine, {}, cfg, now)
    requires m !in judged && m in fined.members && mine <= OverdueOf(loans, m, now)
    ensures Flat(start, AfterJudging(fined, m, cfg, now), loans, scope + mine, judged + {m}, cfg, now)
  {
    FlatJudge(before, fined, loans, mine, m, cfg, now);
    FlatThenFlat(start, before, AfterJudging(fined, m, cfg, now), loans, scope, judged, mine, {m}, m, cfg, now);
  }

  lemma RoundCutShort(start: Accounts, before: Accounts, fined: Accounts, loans: map<LoanId, Loan>,
                      scope: set<LoanId>, judged: set<MemberId>, mine: set<LoanId>, m: MemberId, cfg: Config, now: int)
    requires Flat(start, before, loans, scope, judged, cfg, now) && Flat(before, fined, loans, mine, {}, cfg, now)
    requires m !in judged && mine <= OverdueOf(loans, m, now)
    ensures Flat(start, fined, loans, scope + mine, judged, cfg, now)
  {
    FlatThenFlat(start, before, fined, loans, scope, judged, mine, {}, m, cfg, now);
    assert judged + {} == judged;
  }

  function Filtered(all: seq<Loan>, now: int): seq<Loan> {
    if all == [] then []
    else
      var rest, last := Filtered(all[..|all| - 1], now), all[|all| - 1];
      if Overdue(last, now) then rest + [last] else rest
  }

  lemma {:induction false} InFiltered(all: seq<Loan>, now: int)
    ensures forall loan :: loan in Filtered(all, now) <==> loan in all && Overdue(loan, now)
    ensures (forall i, j | 0 <= i < j < |all| :: all[i].id < all[j].id) ==>
      forall i, j | 0 <= i < j < |Filtered(all, now)| :: Filtered(all, now)[i].id < Filtered(all, now)[j].id
  {
    if all != [] {
      var rest, last := all[..|all| - 1], all[|all| - 1];
      InFiltered(rest, now);
      assert forall loan :: loan in all <==> loan in rest || loan == last;
      forall i | 0 <= i < |Filtered(rest, now)| ensures Filtered(rest, now)[i] in rest {
        assert Filtered(rest, now)[i] in Filtered(rest, now);
      }
    }
  }

  lemma FilteredLists(all: seq<Loan>, loans: map<LoanId, Loan>, now: int)
    requires Lists(all, loans, loans.Keys)
    ensures Lists(Filtered(all, now), loans, OverdueLoans(loans, now))
  {
    InFiltered(all, now);
  }

  function OverdueOfAll(loans: map<LoanId, Loan>, ids: seq<MemberId>, now: int): set<LoanId> {
    set l | l in loans && Overdue(loans[l], now) && loans[l].member in ids
  }

  function Members(ids: seq<MemberId>): set<MemberId> { set m | m in ids }

  lemma RoundSets(loans: map<LoanId, Loan>, ids: seq<MemberId>, i: nat, now: int)
    requires i < |ids| && forall i, j | 0 <= i < j < |ids| :: ids[i] != ids[j]
    ensures ids[i] !in Members(ids[..i]) && Members(ids[..i + 1]) == Members(ids[..i]) + {ids[i]} <= Members(ids)
    ensures OverdueOfAll(loans, ids[..i + 1], now) == OverdueOfAll(loans, ids[..i], now) + OverdueOf(loans, ids[i], now)
    ensures OverdueOfAll(loans, ids[..i + 1], now) <= OverdueOfAll(loans, ids, now)
  {
  }

  /** The batch's member list is exactly the members with an overdue loan. */
  lemma MembersListed(ids: seq<MemberId>, overdue: seq<Loan>, loans: map<LoanId, Loan>, now: int)
    requires FirstSeen(ids, overdue) && Lists(overdue, loans, OverdueLoans(loans, now))
    requires forall l | l in loans :: loans[l].id == l
    ensures Members(ids) == OverdueMembers(loans, now) && OverdueOfAll(loans, ids, now) == OverdueLoans(loans, now)
    ensures forall i, j | 0 <= i < j < |ids| :: ids[i] != ids[j]
  {
    forall m ensures m in ids <==> m in OverdueMembers(loans, now) {
      FirstAtIsFirst(overdue, m);
      var k := FirstAt(overdue, m);
      if k < |overdue| { assert overdue[k] in overdue && overdue[k].id in OverdueLoans(loans, now); }
      if m in OverdueMembers(loans, now) {
        var l :| l in loans && Overdue(loans[l], now) && loans[l].member == m;
        assert loans[l] in overdue;
      }
    }
  }

  /** The freshly assessed fines, each once. */
  ghost predicate NewFines(t: Fines, t': Fines, assessed: seq<Fine>) {
    && (forall id | id in t :: id in t' && t'[id] == t[id])
    && (forall id | id in t' && id !in t :: t'[id].id == id && t'[id] in assessed)
    && (forall f | f in assessed :: f.id in t' && f.id !in t && t'[f.id] == f)
    && (forall i, j | 0 <= i < j < |assessed| :: assessed[i].id != assessed[j].id)
  }

  lemma NewFineAdded(t: Fines, t': Fines, assessed: seq<Fine>, f: Fine)
    requires NewFines(t, t', assessed) && f.id !in t'
    ensures NewFines(t, t'[f.id := f], assessed + [f])
  {
  }

  function OverdueAmong(q: seq<Loan>, now: int): set<LoanId> {
    set loan | loan in q && Overdue(loan, now) :: loan.id
  }

  lemma OverdueAmongGrows(q: seq<Loan>, i: nat, now: int)
    requires i < |q|
    ensures OverdueAmong(q[..i + 1], now) == OverdueAmong(q[..i], now) + if Overdue(q[i], now) then {q[i].id} else {}
  {
  }

  lemma OverdueAmongListed(q: seq<Loan>, i: nat, loans: map<LoanId, Loan>, m: MemberId, now: int)
    requires i <= |q| && Lists(q, loans, set l | l in loans && loans[l].member == m)
    ensures OverdueAmong(q[..i], now) <= OverdueOf(loans, m, now)
  {
  }

  lemma OverdueAmongAll(q: seq<Loan>, loans: map<LoanId, Loan>, m: MemberId, now: int)
    requires Lists(q, loans, set l | l in loans && loans[l].member == m) && forall l | l in loans :: loans[l].id == l
    ensures OverdueAmong(q[..|q|], now) == OverdueOf(loans, m, now)
  {
  }

  /** The accumulating loop wraps like an int64; its result is the wrapped exact sum. */
  method SumUnpaid(fines: Fines, ids: seq<FineId>, m: MemberId) returns (total: int)
    requires Ascending(ids) && forall id :: id in ids <==> id in FinesOf(fines, m)
    ensures total == UnpaidTotalOf(fines, m)
  {
    total := 0;
    for i := 0 to |ids|
      invariant total == Wrap64(Sum(fines, UnpaidAmong(fines, ids[..i])))
    {
      assert ids[i] in ids;
      AddUnpaid(fines, ids, i);
      if fines[ids[i]].paidAt.None? {
        WrapOfSum(Sum(fines, UnpaidAmong(fines, ids[..i])), fines[ids[i]].amount);
        total := Wrap64(total + fines[ids[i]].amount);
      }
    }
    assert ids[..|ids|] == ids;
    assert UnpaidAmong(fines, ids) == OwedBy(fines, m);
  }

  lemma AddUnpaid(t: Fines, ids: seq<FineId>, i: nat)
    requires i < |ids| && Ascending(ids) && ids[i] in t
    ensures Sum(t, UnpaidAmong(t, ids[..i + 1])) ==
      Sum(t, UnpaidAmong(t, ids[..i])) + if t[ids[i]].paidAt.None? then t[ids[i]].amount else 0
  {
    UnpaidAmongGrows(t, ids, i);
    var before, after := UnpaidAmong(t, ids[..i]), UnpaidAmong(t, ids[..i + 1]);
    if t[ids[i]].paidAt.None? {
      SumTakesAny(t, after, ids[i]);
      assert after - {ids[i]} == before;
    } else {
      assert after == before;
    }
  }

  function UnpaidAmong(t: Fines, ids: seq<FineId>): (s: set<FineId>)
    ensures s <= t.Keys
  {
    set id | id in ids && id in t && t[id].paidAt.None?
  }

  lemma UnpaidAmongGrows(t: Fines, ids: seq<FineId>, i: nat)
    requires i < |ids| && Ascending(ids) && ids[i] in t
    ensures ids[i] !in UnpaidAmong(t, ids[..i])
    ensures UnpaidAmong(t, ids[..i + 1]) == UnpaidAmong(t, ids[..i]) + if t[ids[i]].paidAt.None? then {ids[i]} else {}
  {
  }
}
