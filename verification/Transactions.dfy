/** The two implementations of the transactional context: the in-memory one defers staged
    writes to the commit, the database one runs them at once inside a transaction it can
    roll back. A staged write is a total function of the store; the work callback is a
    script of the calls it makes on its context. */
module Transactions {
  import opened Domain

  type ErrorCode = nat

  /** A staged closure either writes, or fails having left the store in some state. */
  datatype Write<+S> = Wrote(store: S) | Failed(store: S, error: ErrorCode)

  /** What a work callback does: stage a write, stage an event, or read the store and
      return an error if it does not like what it sees. */
  datatype Call<!S, +E> =
    | Stage(apply: S -> Write<S>)
    | StageEvent(event: E)
    | Check(ok: S -> bool, error: ErrorCode)

  /** The callback's calls, and the error it returns after them, if any. */
  datatype Work<!S, +E> = Work(calls: seq<Call<S, E>>, outcome: Option<ErrorCode>)

  datatype TxError = WorkError(code: ErrorCode) | StageError(code: ErrorCode)

  /** What a Run leaves behind. */
  datatype Ran<+S, +E> = Ran(store: S, published: seq<E>, error: Option<TxError>)

  // ---------------------------------------------------------------- deferred semantics

  /** The closures staged from the i-th call on. */
  function Closures<S, E>(calls: seq<Call<S, E>>, i: nat := 0): seq<S -> Write<S>>
    decreases |calls| - i
  {
    if i >= |calls| then []
    else if calls[i].Stage? then [calls[i].apply] + Closures(calls, i + 1)
    else Closures(calls, i + 1)
  }

  function Events<S, E>(calls: seq<Call<S, E>>, i: nat := 0): seq<E>
    decreases |calls| - i
  {
    if i >= |calls| then []
    else if calls[i].StageEvent? then [calls[i].event] + Events(calls, i + 1)
    else Events(calls, i + 1)
  }

  /** The error of the first check the given store fails. */
  function FailedCheck<S, E>(calls: seq<Call<S, E>>, s: S, i: nat := 0): Option<ErrorCode>
    decreases |calls| - i
  {
    if i >= |calls| then None
    else if calls[i].Check? && !calls[i].ok(s) then Some(calls[i].error)
    else FailedCheck(calls, s, i + 1)
  }

  /** Closures in order up to and including the first that fails. */
  function ApplyAll<S>(s: S, closures: seq<S -> Write<S>>): (S, Option<ErrorCode>) {
    if closures == [] then (s, None)
    else
      match closures[0](s)
      case Wrote(next) => ApplyAll(next, closures[1..])
      case Failed(left, e) => (left, Some(e))
  }

  function MemoryRun<S, E>(pre: S, work: Work<S, E>): Ran<S, E> {
    match (FailedCheck(work.calls, pre), work.outcome)
    case (Some(e), _) => Ran(pre, [], Some(WorkError(e)))
    case (None, Some(e)) => Ran(pre, [], Some(WorkError(e)))
    case (None, None) =>
      var (post, failure) := ApplyAll(pre, Closures(work.calls));
      match failure
      case Some(e) => Ran(post, [], Some(StageError(e)))
      case None => Ran(post, Events(work.calls), None)
  }

  // ---------------------------------------------------------------- immediate semantics

  datatype Live<+S, +E> = Live(store: S, events: seq<E>, stageErr: Option<ErrorCode>)

  /** Once a stage has failed, later stages do nothing. */
  function LiveStage<S, E>(live: Live<S, E>, apply: S -> Write<S>): Live<S, E> {
    if live.stageErr.Some? then live
    else
      match apply(live.store)
      case Wrote(next) => live.(store := next)
      case Failed(left, e) => live.(store := left, stageErr := Some(e))
  }

  /** The callback against the live transaction: what it leaves there, and its error. */
  function LiveWork<S, E>(live: Live<S, E>, work: Work<S, E>, i: nat := 0): (Live<S, E>, Option<ErrorCode>)
    decreases |work.calls| - i
  {
    if i >= |work.calls| then (live, work.outcome)
    else
      match work.calls[i]
      case Stage(apply) => LiveWork(LiveStage(live, apply), work, i + 1)
      case StageEvent(e) => LiveWork(live.(events := live.events + [e]), work, i + 1)
      case Check(ok, e) => if ok(live.store) then LiveWork(live, work, i + 1) else (live, Some(e))
  }

  function DatabaseRun<S, E>(pre: S, work: Work<S, E>): Ran<S, E> {
    var (live, workErr) := LiveWork(Live(pre, [], None), work);
    match (workErr, live.stageErr)
    case (Some(e), _) => Ran(pre, [], Some(WorkError(e)))
    case (None, Some(e)) => Ran(pre, [], Some(StageError(e)))
    case (None, None) => Ran(live.store, live.events, None)
  }

  // ---------------------------------------------------------------- the contexts

  /** The store a context writes to. */
  class Store<S> {
    var value: S

    constructor (initial: S)
      ensures value == initial
    {
      value := initial;
    }
  }

  /** The bus staged events go to. Whether a publication fails is not up to the context. */
  class Bus<E> {
    var published: seq<E>

    constructor ()
      ensures published == []
    {
      published := [];
    }

    method Publish(e: E) returns (failed: bool)
      modifies this
      ensures published == old(published) + [e]
    {
      published := published + [e];
      failed := *;
    }
  }

  class MemoryContext<S, E> {
    const store: Store<S>
    const bus: Bus<E>
    var staged: seq<S -> Write<S>>
    var events: seq<E>

    constructor (store: Store<S>, bus: Bus<E>)
      ensures this.store == store && this.bus == bus && staged == [] && events == []
    {
      this.store, this.bus := store, bus;
      staged, events := [], [];
    }

    method Stage(apply: S -> Write<S>)
      modifies this`staged
      ensures staged == old(staged) + [apply]
    {
      staged := staged + [apply];
    }

    method StageEvent(e: E)
      modifies this`events
      ensures events == old(events) + [e]
    {
      events := events + [e];
    }

    /** The callback: its reads see the store as it was, nothing staged is applied yet. */
    method DoWork(work: Work<S, E>) returns (err: Option<ErrorCode>)
      modifies this
      ensures var failed := FailedCheck(work.calls, store.value);
        err == if failed.Some? then failed else work.outcome
      ensures err.None? ==> staged == old(staged) + Closures(work.calls) && events == old(events) + Events(work.calls)
    {
      for i := 0 to |work.calls|
        invariant FailedCheck(work.calls, store.value) == FailedCheck(work.calls, store.value, i)
        invariant staged + Closures(work.calls, i) == old(staged) + Closures(work.calls)
        invariant events + Events(work.calls, i) == old(events) + Events(work.calls)
      {
        match work.calls[i]
        case Stage(apply) => Stage(apply);
        case StageEvent(e) => StageEvent(e);
        case Check(ok, e) => if !ok(store.value) { return Some(e); }
      }
      err := work.outcome;
    }

    method ApplyStaged() returns (err: Option<ErrorCode>)
      modifies store
      ensures (store.value, err) == ApplyAll(old(store.value), staged)
    {
      for i := 0 to |staged|
        invariant ApplyAll(store.value, staged[i..]) == ApplyAll(old(store.value), staged)
      {
        assert staged[i..][1..] == staged[i + 1..];
        match staged[i](store.value)
        case Wrote(next) => store.value := next;
        case Failed(left, e) => store.value := left; return Some(e);
      }
      err := None;
    }

    /** A failed publication is logged and skipped: every event is attempted, in order. */
    method PublishStaged()
      modifies bus
      ensures bus.published == old(bus.published) + events
    {
      for i := 0 to |events|
        invariant bus.published == old(bus.published) + events[..i]
      {
        var failed := bus.Publish(events[i]);
      }
    }

    method Run(work: Work<S, E>) returns (err: Option<TxError>)
      requires staged == [] && events == []
      modifies this, store, bus
      ensures Ran(store.value, bus.published, err) ==
        var ran := MemoryRun(old(store.value), work);
        ran.(published := old(bus.published) + ran.published)
    {
      var workErr := DoWork(work);
      if workErr.Some? { return Some(WorkError(workErr.value)); }
      assert staged == Closures(work.calls) && events == Events(work.calls);
      var stageErr := ApplyStaged();
      if stageErr.Some? { return Some(StageError(stageErr.value)); }
      PublishStaged();
      err := None;
    }
  }

  class DatabaseContext<S, E> {
    const db: Store<S>
    const bus: Bus<E>
    var events: seq<E>
    var stageErr: Option<ErrorCode>

    constructor (db: Store<S>, bus: Bus<E>)
      ensures this.db == db && this.bus == bus && events == [] && stageErr.None?
    {
      this.db, this.bus := db, bus;
      events, stageErr := [], None;
    }

    ghost function Now(): Live<S, E>
      reads this, db
    {
      Live(db.value, events, stageErr)
    }

    method Stage(apply: S -> Write<S>)
      modifies this`stageErr, db
      ensures Now() == LiveStage(old(Now()), apply)
    {
      if stageErr.Some? { return; }
      match apply(db.value)
      case Wrote(next) => db.value := next;
      case Failed(left, e) => db.value := left; stageErr := Some(e);
    }

    method StageEvent(e: E)
      modifies this`events
      ensures Now() == old(Now()).(events := old(events) + [e])
    {
      events := events + [e];
    }

    /** The callback: its reads go through the live transaction. */
    method DoWork(work: Work<S, E>) returns (err: Option<ErrorCode>)
      modifies this, db
      ensures (Now(), err) == LiveWork(old(Now()), work)
    {
      for i := 0 to |work.calls|
        invariant LiveWork(Now(), work, i) == LiveWork(old(Now()), work)
      {
        match work.calls[i]
        case Stage(apply) => Stage(apply);
        case StageEvent(e) => StageEvent(e);
        case Check(ok, e) => if !ok(db.value) { return Some(e); }
      }
      err := work.outcome;
    }

    method PublishStaged()
      modifies bus
      ensures bus.published == old(bus.published) + events
    {
      for i := 0 to |events|
        invariant bus.published == old(bus.published) + events[..i]
      {
        var failed := bus.Publish(events[i]);
      }
    }

    method Run(work: Work<S, E>) returns (err: Option<TxError>)
      requires events == [] && stageErr.None?
      modifies this, db, bus
      ensures Ran(db.value, bus.published, err) ==
        var ran := DatabaseRun(old(db.value), work);
        ran.(published := old(bus.published) + ran.published)
    {
      var snapshot := db.value;
      var workErr := DoWork(work);
      if workErr.Some? || stageErr.Some? {
        db.value := snapshot;
        events := [];
        err := Some(if workErr.Some? then WorkError(workErr.value) else StageError(stageErr.value));
        return;
      }
      PublishStaged();
      err := None;
    }
  }

  // ---------------------------------------------------------------- one contract

  /** The work reads only before it stages its first write. */
  predicate ReadsFirst<S, E>(calls: seq<Call<S, E>>) {
    forall i, j | 0 <= i < j < |calls| && calls[i].Stage? :: !calls[j].Check?
  }

  predicate NoChecksFrom<S, E>(calls: seq<Call<S, E>>, i: nat) {
    forall j | i <= j < |calls| :: !calls[j].Check?
  }

  lemma {:induction false} NoChecksNoFailure<S, E>(calls: seq<Call<S, E>>, s: S, i: nat)
    requires NoChecksFrom(calls, i)
    ensures FailedCheck(calls, s, i).None?
    decreases |calls| - i
  {
    if i < |calls| { NoChecksNoFailure(calls, s, i + 1); }
  }

  /** With no reads left, running the rest at once is applying the rest of the closures. */
  lemma {:induction false} WritesThrough<S, E>(live: Live<S, E>, work: Work<S, E>, i: nat)
    requires NoChecksFrom(work.calls, i)
    ensures var (after, err) := LiveWork(live, work, i);
            && err == work.outcome
            && after.events == live.events + Events(work.calls, i)
            && (after.store, after.stageErr) ==
                 if live.stageErr.Some? then (live.store, live.stageErr)
                 else ApplyAll(live.store, Closures(work.calls, i))
    decreases |work.calls| - i
  {
    if i < |work.calls| {
      match work.calls[i]
      case Stage(apply) =>
        WritesThrough(LiveStage(live, apply), work, i + 1);
        assert Closures(work.calls, i)[1..] == Closures(work.calls, i + 1);
      case StageEvent(e) =>
        WritesThrough(live.(events := live.events + [e]), work, i + 1);
        assert live.events + [e] + Events(work.calls, i + 1) == live.events + Events(work.calls, i);
    }
  }

  lemma {:induction false} LiveWorkIsDeferred<S, E>(live: Live<S, E>, work: Work<S, E>, i: nat)
    requires ReadsFirst(work.calls) && live.stageErr.None?
    ensures var (after, err) := LiveWork(live, work, i); var failed := FailedCheck(work.calls, live.store, i);
            && err == (if failed.Some? then failed else work.outcome)
            && (failed.None? ==>
                  after.events == live.events + Events(work.calls, i) &&
                  (after.store, after.stageErr) == ApplyAll(live.store, Closures(work.calls, i)))
    decreases |work.calls| - i
  {
    if i < |work.calls| {
      match work.calls[i]
      case Stage(apply) =>
        NoChecksNoFailure(work.calls, live.store, i);
        WritesThrough(live, work, i);
      case StageEvent(e) =>
        LiveWorkIsDeferred(live.(events := live.events + [e]), work, i + 1);
        assert live.events + [e] + Events(work.calls, i + 1) == live.events + Events(work.calls, i);
      case Check(ok, e) =>
        LiveWorkIsDeferred(live, work, i + 1);
    }
  }

  /** Transaction equivalence: on every work that does not read what it stages, the two
      contexts return the same error, publish the same events in the same order, nothing on
      failure, and leave the same store unless a staged write fails; then the database
      context leaves the store as it was and the in-memory one leaves what the closures up
      to the failing one wrote. */
  lemma ContextsAgree<S, E>(pre: S, work: Work<S, E>)
    requires ReadsFirst(work.calls)
    ensures var m, d := MemoryRun(pre, work), DatabaseRun(pre, work);
            && m.error == d.error && m.published == d.published
            && (m.error.Some? ==> m.published == [] && d.store == pre)
            && (m.error.Some? && m.error.value.WorkError? ==> m.store == pre)
            && (m.error.Some? && m.error.value.StageError? ==> m.store == ApplyAll(pre, Closures(work.calls)).0)
            && (m.error.None? ==> m.store == d.store)
  {
    LiveWorkIsDeferred(Live(pre, [], None), work, 0);
  }

  /** Exactly when the two contexts leave everything the same. */
  lemma ContextsCoincide<S, E>(pre: S, work: Work<S, E>)
    requires ReadsFirst(work.calls)
    ensures MemoryRun(pre, work) == DatabaseRun(pre, work) <==>
      (FailedCheck(work.calls, pre).Some? || work.outcome.Some? ||
       var (post, failure) := ApplyAll(pre, Closures(work.calls)); failure.Some? ==> post == pre)
  {
    LiveWorkIsDeferred(Live(pre, [], None), work, 0);
  }

  /** A closure that fails without having written anything. */
  ghost predicate Atomic<S(!new)>(apply: S -> Write<S>) {
    forall s :: apply(s).Failed? ==> apply(s).store == s
  }

  ghost predicate AllAtomic<S(!new)>(closures: seq<S -> Write<S>>) {
    forall i | 0 <= i < |closures| :: Atomic(closures[i])
  }

  /** The first closure that fails, when they run one after the other. */
  function FirstFailing<S>(s: S, closures: seq<S -> Write<S>>): (k: Option<nat>)
    ensures k.Some? ==> k.value < |closures|
  {
    if closures == [] then None
    else
      match closures[0](s)
      case Failed(_, _) => Some(0)
      case Wrote(next) =>
        match FirstFailing(next, closures[1..])
        case None => None
        case Some(k) => Some(k + 1)
  }

  /** The store after the first k closures have written. */
  function WrittenBy<S>(s: S, closures: seq<S -> Write<S>>, k: nat): S
    requires k <= |closures|
  {
    if k == 0 then s else WrittenBy(closures[0](s).store, closures[1..], k - 1)
  }

  lemma {:induction false} AtomicPrefix<S(!new)>(s: S, closures: seq<S -> Write<S>>)
    requires AllAtomic(closures)
    ensures var k := FirstFailing(s, closures);
      if k.Some? then ApplyAll(s, closures).1.Some? && ApplyAll(s, closures).0 == WrittenBy(s, closures, k.value)
      else ApplyAll(s, closures).1.None?
  {
    if closures != [] {
      assert Atomic(closures[0]);
      if closures[0](s).Wrote? {
        forall i | 0 <= i < |closures[1..]| ensures Atomic(closures[1..][i]) {
          assert closures[1..][i] == closures[i + 1];
        }
        AtomicPrefix(closures[0](s).store, closures[1..]);
      }
    }
  }

  /** With closures that fail whole, as repository writes do, the contexts leave everything the
      same exactly when the work reports an error, or no closure fails, or the writes before
      the first that fails cancel out. */
  lemma AtomicContextsCoincide<S(!new), E>(pre: S, work: Work<S, E>)
    requires ReadsFirst(work.calls) && AllAtomic(Closures(work.calls))
    ensures var closures := Closures(work.calls);
      var k := FirstFailing(pre, closures);
      MemoryRun(pre, work) == DatabaseRun(pre, work) <==>
        (|| FailedCheck(work.calls, pre).Some? || work.outcome.Some?
         || k.None? || WrittenBy(pre, closures, k.value) == pre)
  {
    ContextsCoincide(pre, work);
    AtomicPrefix(pre, Closures(work.calls));
  }

  /** Every transaction of the lending module stages one write: there the two contexts are
      interchangeable. */
  lemma OneWriteIsInterchangeable<S(!new), E>(pre: S, work: Work<S, E>, apply: S -> Write<S>)
    requires ReadsFirst(work.calls) && Closures(work.calls) == [apply] && Atomic(apply)
    ensures MemoryRun(pre, work) == DatabaseRun(pre, work)
  {
    AtomicContextsCoincide(pre, work);
    assert FirstFailing(pre, [apply]).Some? ==> FirstFailing(pre, [apply]) == Some(0);
  }

  /** Stage a write, then check for what it wrote. */
  ghost function StageThenCheck<S, E>(apply: S -> Write<S>, expected: S, error: ErrorCode): Work<S, E> {
    Work([Stage(apply), Check((s: S) => s == expected, error)], None)
  }

  /** Reading what was staged tells the contexts apart, for every store and every write: the
      database context always passes the check, the in-memory one if and only if the write
      changes nothing. */
  lemma ReadingOwnWritesDiffers<S, E>(pre: S, apply: S -> Write<S>, error: ErrorCode)
    requires apply(pre).Wrote?
    ensures var work := StageThenCheck<S, E>(apply, apply(pre).store, error);
      && DatabaseRun(pre, work).error.None?
      && (MemoryRun(pre, work).error.None? <==> apply(pre).store == pre)
  {
    var work := StageThenCheck<S, E>(apply, apply(pre).store, error);
    var live := Live<S, E>.Live(pre, [], None);
    var after := Live<S, E>.Live(apply(pre).store, [], None);
    assert LiveStage(live, apply) == after;
    assert LiveWork(after, work, 1) == LiveWork(after, work, 2);
    assert LiveWork(live, work) == LiveWork(after, work, 1);
    assert FailedCheck(work.calls, pre) == FailedCheck(work.calls, pre, 1);
    assert FailedCheck(work.calls, pre, 2).None?;
    assert Closures(work.calls) == [apply] + Closures(work.calls, 1);
    assert Closures(work.calls, 1) == Closures(work.calls, 2) == [];
    assert ApplyAll(apply(pre).store, [apply][1..]) == (apply(pre).store, None);
  }

  // ---------------------------------------------------------------- what a run leaves, call by call

  /** The stores between the calls from the i-th on, as long as every staged write succeeds. */
  ghost predicate Tracked<S, E>(calls: seq<Call<S, E>>, i: nat, states: seq<S>) {
    && 1 <= |states| && i + |states| <= |calls| + 1
    && (forall j | 0 <= j < |states| - 1 ::
          if calls[i + j].Stage? then calls[i + j].apply(states[j]) == Wrote(states[j + 1])
          else states[j + 1] == states[j])
  }

  /** ... and either all of them did, or the next one fails. */
  ghost predicate Stuck<S, E>(calls: seq<Call<S, E>>, i: nat, states: seq<S>, failure: Option<ErrorCode>, left: S)
    requires Tracked(calls, i, states)
  {
    var last := states[|states| - 1];
    match failure
    case None => i + |states| == |calls| + 1 && left == last
    case Some(e) =>
      var k := i + |states| - 1;
      k < |calls| && calls[k].Stage? && calls[k].apply(last) == Failed(left, e)
  }

  lemma TrackedFirst<S, E>(calls: seq<Call<S, E>>, i: nat, s: S, rest: seq<S>)
    requires i < |calls| && Tracked(calls, i + 1, rest)
    requires if calls[i].Stage? then calls[i].apply(s) == Wrote(rest[0]) else rest[0] == s
    ensures Tracked(calls, i, [s] + rest)
    ensures forall failure, left ::
      Stuck(calls, i + 1, rest, failure, left) ==> Stuck(calls, i, [s] + rest, failure, left)
  {
    var states := [s] + rest;
    forall j | 0 <= j < |states| - 1
      ensures if calls[i + j].Stage? then calls[i + j].apply(states[j]) == Wrote(states[j + 1])
              else states[j + 1] == states[j]
    {
      if j > 0 { assert states[j] == rest[j - 1] && states[j + 1] == rest[j]; }
    }
  }

  /** The closures applied in order are the staged writes in the order of the calls. */
  lemma {:induction false} ApplyAllTracks<S, E>(calls: seq<Call<S, E>>, s: S, i: nat) returns (states: seq<S>)
    requires i <= |calls|
    ensures Tracked(calls, i, states) && states[0] == s
    ensures var (post, failure) := ApplyAll(s, Closures(calls, i)); Stuck(calls, i, states, failure, post)
    decreases |calls| - i
  {
    states := [s];
    if i < |calls| {
      if !calls[i].Stage? {
        var rest := ApplyAllTracks(calls, s, i + 1);
        TrackedFirst(calls, i, s, rest);
        states := [s] + rest;
      } else {
        assert Closures(calls, i)[1..] == Closures(calls, i + 1);
        match calls[i].apply(s)
        case Failed(_, _) =>
        case Wrote(next) =>
          var rest := ApplyAllTracks(calls, next, i + 1);
          TrackedFirst(calls, i, s, rest);
          states := [s] + rest;
      }
    }
  }

  /** How many events the first n calls stage. */
  function StagedBefore<S, E>(calls: seq<Call<S, E>>, n: nat): nat
    requires n <= |calls|
  {
    if n == 0 then 0 else StagedBefore(calls, n - 1) + if calls[n - 1].StageEvent? then 1 else 0
  }

  lemma {:induction false} StagedBeforeGrows<S, E>(calls: seq<Call<S, E>>, i: nat, n: nat)
    requires i <= n <= |calls|
    ensures StagedBefore(calls, i) <= StagedBefore(calls, n)
  {
    if i < n { StagedBeforeGrows(calls, i, n - 1); }
  }

  lemma {:induction false} EventPlace<S, E>(calls: seq<Call<S, E>>, i: nat, n: nat)
    requires i <= n <= |calls|
    ensures |Events(calls, i)| == StagedBefore(calls, |calls|) - StagedBefore(calls, i)
    ensures n < |calls| && calls[n].StageEvent? ==>
      var k := StagedBefore(calls, n) - StagedBefore(calls, i);
      0 <= k < |Events(calls, i)| && Events(calls, i)[k] == calls[n].event
    decreases |calls| - i
  {
    StagedBeforeGrows(calls, i, n);
    if i < |calls| {
      EventPlace(calls, i + 1, if n == i then i + 1 else n);
      if i < n { StagedBeforeGrows(calls, i + 1, n); }
    }
  }

  /** Every staged event is there, once, in the order of the calls. */
  ghost predicate AllStaged<S, E>(calls: seq<Call<S, E>>, events: seq<E>) {
    && |events| == StagedBefore(calls, |calls|)
    && (forall n | 0 <= n < |calls| && calls[n].StageEvent? ::
          StagedBefore(calls, n) < |events| && events[StagedBefore(calls, n)] == calls[n].event)
  }

  lemma EventsAreStaged<S, E>(calls: seq<Call<S, E>>)
    ensures AllStaged(calls, Events(calls))
  {
    EventPlace(calls, 0, 0);
    forall n | 0 <= n < |calls| && calls[n].StageEvent?
      ensures StagedBefore(calls, n) < |Events(calls)| && Events(calls)[StagedBefore(calls, n)] == calls[n].event
    {
      EventPlace(calls, 0, n);
    }
  }

  lemma {:induction false} FailedCheckIsFirst<S, E>(calls: seq<Call<S, E>>, s: S, i: nat) returns (at: nat)
    requires i <= |calls|
    ensures i <= at <= |calls| && forall j | i <= j < at :: calls[j].Check? ==> calls[j].ok(s)
    ensures if at == |calls| then FailedCheck(calls, s, i) == None
            else calls[at].Check? && !calls[at].ok(s) && FailedCheck(calls, s, i) == Some(calls[at].error)
    decreases |calls| - i
  {
    at := i;
    if i < |calls| && (calls[i].Check? ==> calls[i].ok(s)) { at := FailedCheckIsFirst(calls, s, i + 1); }
  }

  /** The in-memory Run, call by call. The first check the store fails (at) ends the work with its
      error, else the work's own error does; then nothing happened. Else the staged writes are
      applied in order (states), and the first that fails ends the run with its error and no
      event. Else every staged event is published, once, in order. */
  lemma MemoryRunAnswers<S, E>(pre: S, work: Work<S, E>) returns (at: nat, states: seq<S>)
    ensures at <= |work.calls| && forall j | 0 <= j < at :: work.calls[j].Check? ==> work.calls[j].ok(pre)
    ensures Tracked(work.calls, 0, states) && states[0] == pre
    ensures var ran := MemoryRun(pre, work);
      if at < |work.calls| then
        && work.calls[at].Check? && !work.calls[at].ok(pre)
        && ran == Ran(pre, [], Some(WorkError(work.calls[at].error)))
      else if work.outcome.Some? then ran == Ran(pre, [], Some(WorkError(work.outcome.value)))
      else if ran.error == None then
        Stuck(work.calls, 0, states, None, ran.store) && AllStaged(work.calls, ran.published)
      else
        && ran.error.value.StageError? && ran.published == []
        && Stuck(work.calls, 0, states, Some(ran.error.value.code), ran.store)
  {
    at := FailedCheckIsFirst(work.calls, pre, 0);
    states := ApplyAllTracks(work.calls, pre, 0);
    EventsAreStaged(work.calls);
  }

  /** A failed stage stays the error of the run. */
  lemma {:induction false} StageErrorStays<S, E>(live: Live<S, E>, work: Work<S, E>, i: nat)
    requires live.stageErr.Some?
    ensures LiveWork(live, work, i).0.stageErr == live.stageErr
    decreases |work.calls| - i
  {
    if i < |work.calls| {
      match work.calls[i]
      case Stage(apply) => StageErrorStays(live, work, i + 1);
      case StageEvent(e) => StageErrorStays(live.(events := live.events + [e]), work, i + 1);
      case Check(ok, e) => StageErrorStays(live, work, i + 1);
    }
  }

  /** Every check from the i-th call on passes on the store it sees. */
  ghost predicate ChecksPass<S, E>(calls: seq<Call<S, E>>, i: nat, states: seq<S>)
    requires Tracked(calls, i, states) && i + |states| == |calls| + 1
  {
    forall j | 0 <= j < |states| - 1 :: calls[i + j].Check? ==> calls[i + j].ok(states[j])
  }

  ghost predicate RunsThrough<S, E>(work: Work<S, E>, i: nat, states: seq<S>) {
    && Tracked(work.calls, i, states) && i + |states| == |work.calls| + 1
    && ChecksPass(work.calls, i, states) && work.outcome == None
  }

  lemma {:induction false} LiveWorkTracks<S, E>(live: Live<S, E>, work: Work<S, E>, i: nat) returns (states: seq<S>)
    requires live.stageErr.None? && i <= |work.calls|
    ensures Tracked(work.calls, i, states) && states[0] == live.store
    ensures i + |states| < |work.calls| + 1 ==>
      var k := i + |states| - 1; work.calls[k].Stage? && work.calls[k].apply(states[|states| - 1]).Failed?
    ensures var (after, err) := LiveWork(live, work, i);
      && (err.None? && after.stageErr.None? <==> RunsThrough(work, i, states))
      && (RunsThrough(work, i, states) ==>
            after.store == states[|states| - 1] && after.events == live.events + Events(work.calls, i))
    decreases |work.calls| - i
  {
    if i == |work.calls| { return [live.store]; }
    match work.calls[i]
    case Stage(apply) =>
      match apply(live.store) {
        case Failed(_, _) =>
          StageErrorStays(LiveStage(live, apply), work, i + 1);
          return [live.store];
        case Wrote(next) =>
          states := LiveWorkTracks(live.(store := next), work, i + 1);
      }
      RunsOneMore(live.store, work, i, states);
      states := [live.store] + states;
    case StageEvent(e) =>
      states := LiveWorkTracks(live.(events := live.events + [e]), work, i + 1);
      RunsOneMore(live.store, work, i, states);
      assert live.events + [e] + Events(work.calls, i + 1) == live.events + Events(work.calls, i);
      states := [live.store] + states;
    case Check(ok, e) =>
      states := LiveWorkTracks(live, work, i + 1);
      RunsOneMore(live.store, work, i, states);
      states := [live.store] + states;
  }

  lemma RunsOneMore<S, E>(s: S, work: Work<S, E>, i: nat, rest: seq<S>)
    requires i < |work.calls| && Tracked(work.calls, i + 1, rest)
    requires if work.calls[i].Stage? then work.calls[i].apply(s) == Wrote(rest[0]) else rest[0] == s
    ensures Tracked(work.calls, i, [s] + rest)
    ensures RunsThrough(work, i, [s] + rest) <==>
      RunsThrough(work, i + 1, rest) && (work.calls[i].Check? ==> work.calls[i].ok(s))
  {
    TrackedFirst(work.calls, i, s, rest);
    if i + 1 + |rest| == |work.calls| + 1 { ChecksOneMore(work.calls, i, s, rest); }
  }

  lemma ChecksOneMore<S, E>(calls: seq<Call<S, E>>, i: nat, s: S, rest: seq<S>)
    requires i < |calls| && Tracked(calls, i + 1, rest) && Tracked(calls, i, [s] + rest) && i + |rest| == |calls|
    ensures ChecksPass(calls, i, [s] + rest) <==>
      ChecksPass(calls, i + 1, rest) && (calls[i].Check? ==> calls[i].ok(s))
  {
    var states := [s] + rest;
    if ChecksPass(calls, i, states) {
      forall j | 0 <= j < |rest| - 1 ensures calls[i + 1 + j].Check? ==> calls[i + 1 + j].ok(rest[j]) {
        assert states[j + 1] == rest[j];
      }
      assert states[0] == s;
    } else {
      var j :| 0 <= j < |states| - 1 && calls[i + j].Check? && !calls[i + j].ok(states[j]);
      if j > 0 { assert rest[j - 1] == states[j]; }
    }
  }

  /** The database Run, call by call: it succeeds if and only if every staged write succeeds in its
      turn, every check passes on what is written by then, and the work reports no error. Then
      everything written stays and every staged event is published, once, in order; otherwise
      nothing happened. */
  lemma DatabaseRunAnswers<S, E>(pre: S, work: Work<S, E>) returns (states: seq<S>)
    ensures Tracked(work.calls, 0, states) && states[0] == pre
    ensures |states| <= |work.calls| ==>
      var k := |states| - 1; work.calls[k].Stage? && work.calls[k].apply(states[k]).Failed?
    ensures var ran := DatabaseRun(pre, work);
      if RunsThrough(work, 0, states)
      then ran.error == None && ran.store == states[|states| - 1] && AllStaged(work.calls, ran.published)
      else ran.error != None && ran.store == pre && ran.published == []
  {
    states := LiveWorkTracks(Live(pre, [], None), work, 0);
    EventsAreStaged(work.calls);
  }
}
