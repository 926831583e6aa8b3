# A verified model of the library service

The service lends books. Members reserve and borrow copies; returning a copy starts a saga that
lends it to the first eligible reserver; overdue loans are fined and members who owe too much are
suspended; the catalog is read through a cache; a chat endpoint streams tokens. This project
models those flows in Dafny and proves what they keep: over every interleaving of concurrent
calls, over every pattern of failing calls, over whole runs.

Check everything with `dafny verify dfyconfig.toml`.

## How the model is laid out

**The saga, concurrently.** `SagaMachine` makes the lending facade, the auto-loan consumer and
the in-memory adapters one interleaved step machine. A thread runs one facade call; its program
counter names the next access to shared state; every access that can fail takes its failure from
the schedule. A repository write and the publication of the event staged beside it are two steps,
because another thread can run between them. On top of it:

- `SagaInvariant`: the lock discipline, and an account for every reservation that balances the
  table against the log at every step of every handler;
- `SagaProgress`: no deadlock, and a measure that falls with every step although queues grow;
- `SagaReplay`, `SagaTheorems`: the reservation table is the fold of the event log, nothing is
  lent twice, a reservation is stuck exactly when its un-fulfilment failed;
- `SagaSchedule`, `SagaOutcome`: fault-free returns give the same result whatever the schedule, and
  what that result is: every reservation, loan and copy at the end.

**The saga, sequentially.** `LendingSpec` says what each operation does as a function of the
state and of the faults that strike it. The class in `LendingFacade` is proved to do exactly that.
`SequentialRuns` proves that the same functions describe a thread of the step machine that nobody
interrupts, and `LoneRuns` that such runs exist, so the two models are one. `LendingTheorems` and
`LendingGuarantees` prove what sequential runs keep, and `LendingAnswers` what every operation
answers, stores and publishes, field by field.

**Transactions.** `Transactions` has both transactional contexts as classes, the one that defers
staged writes and the one that runs them at once and rolls back, says what each leaves call by
call, and exactly when they are interchangeable.

**Fines.** `FineMoney` is the 64-bit day and amount arithmetic, `FineTables` the sums over the fines
table, `FinesFacade` the loops, proved to do what one flat statement says, idempotence, and the
books: what the log announces to a member is what the member paid and owes.

**Catalog.** `BookSchema` trims and parses what clients send and merges it with the gateway's
metadata. `CatalogRepository` and `BookCache` hold authors arrays of their own on the heap,
`CatalogFacade` works on both, `CatalogClient` keeps every array it ever made or was handed and
writes into them between calls; its script has a meaning on values, and the heap follows it.
`CatalogSpec`, `CatalogAnswers` and `CatalogTheorems` are the value level: what each operation
answers and stores, exactly when a cached entry misleads, cache coherence and invisibility, and the
listing order.

**Event bus.** `EventBus` refines a slot array with cleared slots to a list of live subscriptions,
with handlers that call back into the bus; `EventBusTheorems` and `ConsumerLifecycle` say what
publishers, subscribers and the consumer's Start and Stop can rely on.

**Chat.** `ChatPipeline` and `ChatTheorems` are the two goroutines, two bounded channels, a reader
and a cancellation.

`Domain`, `Books`, `SortedIds` and `ReservationQueue` are shared vocabulary.

## Where the code and its documentation disagree

The model follows the code.

- The comment at internal/chat/facade.go:39-43 says that no Done frame is emitted once the context
  was cancelled before the gateway completed. The `select` at internal/chat/facade.go:80-85 may
  still take the send: `ChatTheorems.DoneAfterCancellation`.
- The comment at internal/catalog/driven/memory/repository.go:155 says that `removeBookId` returns a
  new slice. It shifts the tail inside the same array; `CatalogRepository.RemoveBookId` does too.
- The comment at internal/catalog/facade.go:261-266 says that the gateway's title fills a blank one.
  The code fills only an empty one; a title of spaces is kept and then refused:
  `CatalogTheorems.EnrichedAsDocumented` says exactly when the two differ.
- A `ReservationQueued` is published after its row has become visible to handlers, so the fold in
  `SagaTheorems.EventReplay` does not rely on its coming before the reservation's
  `ReservationFulfilled`.

## Model

| member | source | states |
|---|---|---|
| ReservationQueue.SortedUnique | internal/lending/driven/memory/reservation_repository.go:107-112 | the (ReservedAt, ReservationId) order leaves no freedom: two sorted listings with the same reservations are equal |
| ReservationQueue.QueueIsUnique | internal/lending/driven/memory/reservation_repository.go:96-113 | any sorted listing of exactly a book's pending reservations is the pending queue |
| ReservationQueue.QueueOrder | internal/lending/driven/memory/reservation_repository.go:96-113 | the queue holds exactly the book's unfulfilled reservations, and of two of them the one with the smaller ReservedAt stands first, at equal times the one with the smaller id |
| ReservationQueue.ListPendingReservationsForBook | internal/lending/driven/memory/reservation_repository.go:96-113 | filtering a map walked in any order and sorting yields the one FIFO queue: the book's unfulfilled reservations, earliest ReservedAt first, ties by id |
| ReservationQueue.PendingReservationCountForBook | internal/lending/driven/memory/reservation_repository.go:80-90 | the count is the number of the book's unfulfilled reservations, and the length of the queue |
| SagaInvariant.LocksKept | internal/lending/auto_loan_on_return.go:133-160 | every step keeps the lock discipline: one mutex per book, mutexes held exactly by the handlers inside their critical sections, the allocation and lifecycle locks held only across one access |
| SagaInvariant.HandlersExclude | internal/lending/auto_loan_on_return.go:141-144 | two handlers inside the book lock work on different books |
| SagaInvariant.BooksDoNotBlockEachOther | internal/lending/auto_loan_on_return.go:148-160 | a handler that waits for its mutex waits only for a handler of the same book |
| SagaInvariant.EngagementIsExclusive | internal/lending/auto_loan_on_return.go:166-218 | no two handlers ever have the same reservation in the queue they walk, under claim, claimed, or being undone |
| SagaInvariant.RunKeepsInv | internal/lending/auto_loan_on_return.go:133-333 | over every interleaving and fault pattern: the lock discipline, what each handler believes about the table, and a balanced account for every reservation |
| SagaProgress.NoDeadlock | internal/lending/auto_loan_on_return.go:103-160 | a state of the invariant with an unfinished call has a step some thread can take |
| SagaProgress.MeasureFalls | internal/lending/auto_loan_on_return.go:166-194 | one natural number falls at every step, though other threads may be adding reservations to the queues |
| SagaProgress.RunsAreBounded | internal/lending/auto_loan_on_return.go:166-194 | a run is no longer than the measure of its first state |
| SagaProgress.MaximalRunsFinish | internal/lending/auto_loan_on_return.go:133-146 | a run that cannot be extended has finished every call, within the measure's number of steps |
| SagaProgress.CanAlwaysFinish | internal/lending/auto_loan_on_return.go:133-146 | from every state of the invariant some schedule finishes every call |
| SagaReplay.ChronicleKept | internal/lending/facade.go:93-159 | every step keeps table rows and announcements in step: a row is original, announced, or about to be announced by the thread that wrote it, and events tell the truth about the rows |
| SagaTheorems.EventReplay | internal/lending/auto_loan_on_return.go:199-333 | whenever no handler is midway the reservation table equals the table rebuilt from the initial rows and the event log alone |
| SagaTheorems.SagaTallies | internal/lending/auto_loan_on_return.go:199-333 | for a reservation no handler is working on: fulfilments exceed un-fulfilments by one if it is fulfilled, else they are equal; fulfilments equal AutoLoanOpened plus AutoLoanFailed |
| SagaTheorems.NoDoubleFulfilment | internal/lending/auto_loan_on_return.go:233-289 | one handler at a time, at most one AutoLoanOpened ever, and after it never pending again in any continuation |
| SagaTheorems.StuckIffUnfulfilFailed | internal/lending/auto_loan_on_return.go:263-289 | with no handler on it, a reservation is fulfilled without an AutoLoanOpened if and only if un-fulfilling it failed, which happens at most once |
| SagaTheorems.LogTellsTheLoans | internal/lending/facade.go:93-125 | at rest the persisted loans are the initial ones and the announced ones; at any time LoanReturned names closed loans and AutoLoanOpened a loan of the reserver |
| SagaSchedule.RestOfTheLine | internal/lending/auto_loan_on_return.go:166-194 | the queue a handler lists now, past the ineligible, is the rest of the queue that existed at the start |
| SagaSchedule.TrackKept | internal/lending/auto_loan_on_return.go:133-218 | every fault-free step of any return keeps every other return undisturbed and every line served in order |
| SagaOutcome.TablesKept | internal/lending/auto_loan_on_return.go:133-218 | every fault-free step of any return keeps the loan table (original loans as they were or closed by their return, every other loan opened by one of the returns) and the copies nobody returns |
| SagaOutcome.RunKeepsTables | internal/lending/facade.go:178-209 | the same over every interleaving of fault-free returns |
| SagaOutcome.ScheduleIndependence | internal/lending/auto_loan_on_return.go:141-217 | however fault-free returns of distinct open loans interleave, exactly the first min(returns, eligible) reservations of each book are fulfilled and no other row changes: if a waiting reservation is fulfilled, so is every waiting one of its book with an earlier (ReservedAt, id); the loans at the end are the initial ones, the returned ones closed, and exactly one new loan for each served place, open, for 14 days, of one returned copy, to that reserver; every other returned copy is on the shelf, copies nobody returned are untouched, and loans and copies agree |
| SagaOutcome.SchedulesAgree | internal/lending/facade.go:178-209 | any two complete fault-free schedules fulfil the same reservations |
| SequentialRuns.HandlerDoesTheRest | internal/lending/auto_loan_on_return.go:166-333 | each access of an undisturbed handler leaves exactly the remaining work of the sequential specification |
| SequentialRuns.ReturnAlone | internal/lending/facade.go:178-209 | an uninterrupted thread running ReturnLoan, handler included, ends in the tables and log of the sequential specification, for every pattern of faults |
| SequentialRuns.BorrowAlone | internal/lending/facade.go:93-125 | likewise for a direct Borrow |
| SequentialRuns.ReserveAlone | internal/lending/facade.go:135-159 | likewise for Reserve |
| SequentialRuns.StatusAlone | internal/membership/facade.go:124-138 | a change of standing in the step machine is that of the sequential specification |
| SequentialRuns.LifecycleAlone | internal/lending/auto_loan_on_return.go:103-128 | Start and Stop of the step machine, uninterrupted, attach and detach the consumer and give the lock back |
| LoneRuns.CanRunAlone | internal/lending/facade.go:93-209 | such uninterrupted runs exist: from every state of the invariant a thread nobody hinders reaches the end of its operation, for every pattern of faults |
| LendingFacade.Facade.Borrow | internal/lending/facade.go:93-125 | state and answer are those of the specification of Borrow, every refusal and post-commit failure included (see LendingAnswers.BorrowRefuses and BorrowLends) |
| LendingFacade.Facade.Reserve | internal/lending/facade.go:135-159 | state and answer are those of the specification of Reserve (see LendingAnswers.ReserveAnswers) |
| LendingFacade.Facade.AttemptAutoLoan | internal/lending/auto_loan_on_return.go:199-218 | state is that of the specification of one attempt: claim, borrow outside the claim, announce or compensate (see LendingAnswers.AttemptAnswers) |
| LendingFacade.Facade.ProcessReturn | internal/lending/auto_loan_on_return.go:166-194 | the early-exit loop over the queue makes the one attempt of the specification, for the earliest reservation that may be served (see LendingAnswers.FirstEligibleIsNext) |
| LendingFacade.Facade.ReturnLoan | internal/lending/facade.go:178-209 | state and answer are those of the specification of ReturnLoan with the consumer attached (see LendingAnswers.ReturnStops, ReturnServesNobody and ReturnServesTheNext) |
| LendingAnswers.BorrowRefuses | internal/lending/facade.go:93-125 | each refusal happens exactly when its check fails and no earlier one does: role, member lookup, standing, copy lookup, copy off the shelf, failed save; a refused borrow changes nothing |
| LendingAnswers.BorrowLends | internal/lending/facade.go:93-125 | otherwise one loan with the member, copy and book asked for, borrowed now, due in 14 days, not returned, is stored and announced with the same fields; the copy leaves the shelf unless marking it fails, which is the only error left |
| LendingAnswers.ReserveAnswers | internal/lending/facade.go:135-159 | each refusal exactly when its check fails; otherwise an unfulfilled row for the member and book with the time of the call is stored and announced |
| LendingAnswers.EarlierReserverStandsFirst | internal/lending/driven/memory/reservation_repository.go:96-113 | of two reservations of a book the one made earlier stands first in the queue, whatever operations came in between, as long as it is pending |
| LendingAnswers.StandingDecides | internal/membership/facade.go:107-138 | whatever operations came since, a member last set Active may reserve and borrow an available copy, one last set Suspended is refused both as ineligible |
| LendingAnswers.StatusAnswers | internal/membership/facade.go:124-138 | a standing changes for a registered member only, and for nobody else |
| LendingAnswers.ReturnStops | internal/lending/facade.go:178-209 | each error of a return exactly when its step fails, and what was written by then |
| LendingAnswers.FirstEligibleIsNext | internal/lending/auto_loan_on_return.go:166-194 | the reservation the walk attempts is the unfulfilled one of the book with the earliest (ReservedAt, id) whose reserver is looked up and Active; there is none exactly when nobody is |
| LendingAnswers.ReturnServesNobody | internal/lending/auto_loan_on_return.go:166-194 | without subscription, listing, claim or such a reservation, a return closes its loan, shelves its copy, announces both and leaves nothing else |
| LendingAnswers.AttemptAnswers | internal/lending/auto_loan_on_return.go:199-333 | tables and events after an attempt, field by field, for every pattern of faults |
| LendingAnswers.ReturnServesTheNext | internal/lending/facade.go:178-209 | a return closes its loan and hands its copy to the earliest reservation that may be served: loans, copies, reservations and the exact list of events, for every pattern of faults after the claim |
| LendingTheorems.LoansAndCopiesAgree | internal/lending/facade.go:93-125 | after every sequential run with the saga and any faults, a copy none of whose Mark calls failed is unavailable with exactly one open loan or available with none; persisted loan ids are the announced ones; LoanReturned names closed loans |
| LendingTheorems.ReturnInTwoParts | internal/lending/facade.go:178-209 | a return is its own part followed by at most one attempt, for a reservation pending at that moment |
| LendingGuarantees.SuspensionHolds | internal/lending/facade.go:242-255 | over every run without a reactivation of a suspended member, the member gets no loan, joins no queue and has nothing claimed |
| LendingGuarantees.FirstComeFirstServed | internal/lending/auto_loan_on_return.go:176-191 | the reservation attempted is the first in the queue whose check succeeds as eligible, and nobody is attempted if and only if there is none |
| LendingGuarantees.AttemptCompensates | internal/lending/auto_loan_on_return.go:233-289 | the table after an attempt differs only in that reservation, and differs exactly when the claim committed and was not undone |
| LendingGuarantees.ReturningTwice | internal/lending/facade.go:171-173 | after a second return of a closed loan with no failing Mark call on its copy, saga or not, copy and open loans agree if and only if the copy was available before |
| LendingGuarantees.ReturningTwiceMisleads | internal/lending/facade.go:171-173 | for all ids, a run of five allowed calls after which a second return shelves a copy that is lent out |
| Transactions.MemoryContext.ApplyStaged | internal/shared/tx/memory/transactional_context.go:88-95 | closures take effect in order up to and including the first that fails |
| Transactions.MemoryContext.Run | internal/shared/tx/memory/transactional_context.go:74-83 | store, published events and error are those of deferred execution |
| Transactions.DatabaseContext.Run | internal/shared/tx/bun/transactional_context.go:106-140 | store, published events and error are those of live execution with rollback |
| Transactions.MemoryRunAnswers | internal/shared/tx/memory/transactional_context.go:74-111 | the first failing check, else the work's own error, ends the run with nothing changed; else the staged writes apply in the order of the calls up to the first that fails, whose error is returned and no event published; else every staged event is published, once, in order |
| Transactions.DatabaseRunAnswers | internal/shared/tx/bun/transactional_context.go:106-156 | it succeeds exactly when every staged write succeeds in its turn, every check passes on what is written by then and the work reports no error; then all writes stay and every staged event is published, once, in order; otherwise nothing happened |
| Transactions.ContextsAgree | internal/shared/tx/memory/transactional_context.go:74-111 | for every work that does not read what it stages: same error, same events in the same order, none on failure; after a failing stage the database has its old store and memory the prefix up to the failing closure |
| Transactions.ContextsCoincide | internal/shared/tx/bun/transactional_context.go:106-156 | the two contexts leave everything the same if and only if the work failed, no closure fails, or those that ran left the store as it was |
| Transactions.AtomicContextsCoincide | internal/shared/tx/bun/transactional_context.go:106-156 | for closures that fail whole, the contexts leave everything the same if and only if the work failed, no closure fails, or the writes before the first failing one cancel out |
| Transactions.OneWriteIsInterchangeable | internal/lending/auto_loan_on_return.go:233-255 | for transactions of one atomic write, the only kind lending makes, the contexts are interchangeable |
| Transactions.ReadingOwnWritesDiffers | internal/shared/tx/memory/transactional_context.go:60-62 | for every store and every write, a check for what was just staged passes in the database context, and passes in the in-memory one if and only if the write changes nothing |
| FineMoney.DaysAreTheCeiling | internal/fines/facade.go:266-269 | for an overdue loan the days are the exact ceiling below saturation, grow with the clock, and lie in 1..106752 |
| FineMoney.AmountsAreExact | internal/fines/facade.go:218-228 | for rates up to (2^63-1)/106752 the 64-bit product is the exact one |
| FineMoney.RateIsSafe | internal/fines/facade.go:218-228 | a rate gives every overdue loan its exact amount if and only if it is at most (2^63-1)/106752 |
| FineTables.SumTakesAny | internal/fines/facade.go:200-213 | a sum over a map does not depend on the order it is taken in |
| FineTables.PaymentMovesTheAmount | internal/fines/facade.go:142-160 | paying moves exactly that fine's amount from owed to paid for its member and touches nobody else's totals |
| FinesFacade.RunsConserve | internal/fines/facade.go:65-160 | over every run of assessments, batches and payments, cut short or not: one fine a loan, member, loan and amount never change, paid is absorbing, and for every member the announced amounts add up to what was assessed, which is what was paid plus what is owed |
| FinesFacade.AnnouncedIsPaidOrOwed | internal/fines/facade.go:200-213 | when every fine was announced once, the amounts a member was announced are those paid plus those owed |
| FinesFacade.FlatThenFlat | internal/fines/facade.go:104-118 | two consecutive parts of the batch amount to one flat statement about their union: fines, suspensions and announcements |
| FinesFacade.SecondRunChangesNothing | internal/fines/facade.go:104-118 | a batch repeated at the same instant changes and publishes nothing |
| FinesFacade.DistinctIsFirstSeen | internal/fines/facade.go:250-261 | the distinct members are all members listed, each once, by first appearance |
| FinesFacade.Facade.FindFineByLoanId | internal/fines/driven/memory/repository.go:61-71 | a scan in any order finds a fine of the loan if and only if there is one |
| FinesFacade.Facade.ListFinesForMember | internal/fines/driven/memory/repository.go:76-91 | exactly the fines whose member it is, by ascending id |
| FinesFacade.Facade.UnpaidTotal | internal/fines/facade.go:200-213 | the accumulating loop returns what the member owes, wrapped to 64 bits |
| FinesFacade.Facade.AssessFinesFor | internal/fines/facade.go:65-98 | one new unpaid fine, announced as it is, for each of the member's loans that is not returned and past its due date and had none; no fine for any other loan; on a fault a part of that; no fine touched that was there |
| FinesFacade.Facade.MaybeAutoSuspend | internal/fines/facade.go:166-197 | flips the member if and only if not suspended and owing at least the threshold, with one event carrying the total |
| FinesFacade.Facade.ProcessOverdueLoans | internal/fines/facade.go:104-118 | the nested loops equal the flat specification: fines only for loans not returned and past due, suspensions only of their borrowers who were active and owe the threshold, and on success all of them; it succeeds if and only if nothing fails and every such borrower is registered |
| FinesFacade.Facade.ListOverdueLoans | internal/lending/facade.go:221-237 | exactly the stored loans that are not returned and were due strictly before now, by ascending id |
| FinesFacade.Facade.PayFine | internal/fines/facade.go:142-160 | an unpaid fine gets the time of the call as its payment and nothing else changes; unknown and paid fines are refused unchanged |
| FinesFacade.Facade.Session | internal/fines/facade.go:65-160 | any sequence of assessments, batches and payments on the facade, whatever fails, keeps one fine a loan, every fine's member, loan and amount, and paid fines paid; for every member the FineAssessed amounts in the log are what was paid plus what is owed |
| Books.Clone | internal/catalog/driven/memory/repository.go:146-153 | the same value in an authors array nobody else has, nil staying nil |
| CatalogRepository.RemoveBookId | internal/catalog/driven/memory/repository.go:156-163 | shifting in place removes the first occurrence and keeps the rest in order |
| CatalogRepository.OrderIsByBirth | internal/catalog/driven/memory/repository.go:41-49 | after any sequence of saves and deletions the order holds exactly the stored ids, each once, by first save since last deletion |
| CatalogRepository.WantedByBirth | internal/catalog/driven/memory/repository.go:95-109 | the listing by ids shows exactly the stored ids asked for, once each, in listing order |
| CatalogRepository.Repository.SaveBook | internal/catalog/driven/memory/repository.go:41-49 | upserts a clone; a known id keeps its place, a new one goes last; only fresh arrays enter the representation |
| CatalogRepository.Repository.DeleteBook | internal/catalog/driven/memory/repository.go:114-123 | map and order lose the id together, or nothing changes |
| CatalogRepository.Repository.FindBookByIsbn | internal/catalog/driven/memory/repository.go:65-76 | the first book in order with the ISBN, in a fresh array, or none (see CatalogRepository.FirstIsFirst) |
| CatalogRepository.FirstIsFirst | internal/catalog/driven/memory/repository.go:65-76 | the book found is the first in order with the ISBN; none is found exactly when no listed book has it |
| CatalogRepository.Repository.ListBooks | internal/catalog/driven/memory/repository.go:81-89 | every stored book in order, in fresh arrays |
| CatalogRepository.Repository.ListBooksByIds | internal/catalog/driven/memory/repository.go:95-109 | the listing filtered by membership, in fresh arrays |
| BookCache.Cache.Get | internal/shared/bookcache/memory/in_memory.go:32-41 | the entry in a fresh array, or a miss |
| BookCache.Cache.Set | internal/shared/bookcache/memory/in_memory.go:44-49 | the entry denotes the book given, in an array of the cache's own |
| BookSchema.TrimIsTight | internal/catalog/schema.go:99-108 | a trimmed string has no space at either end and trims to itself |
| BookSchema.TrimDropsSpaces | internal/catalog/schema.go:99-108 | trimming drops spaces at both ends and nothing else |
| BookSchema.NamesOneByOne | internal/catalog/schema.go:99-108 | authors are trimmed and judged one by one and keep their order; one goes if and only if nothing but spaces is in it |
| BookSchema.IsbnParses | internal/catalog/schema.go:26-36 | what parses is the trimmed input, if and only if without hyphens and spaces it is thirteen digits, or nine digits and a digit or X |
| BookSchema.ParsedIsbnParses | internal/catalog/schema.go:26-57 | a parsed ISBN parses to itself, so parsing it again with the rest of the book changes nothing |
| CatalogFacade.FilterAuthors | internal/catalog/schema.go:99-108 | the trimmed authors that are not blank, in order, in a fresh array, the argument unchanged |
| CatalogFacade.EnrichAndParse | internal/catalog/facade.go:238-283 | the book, or the error, that the value level gives for the same title, authors, ISBN and gateway reply, with an authors array of its own |
| CatalogFacade.Facade.AddBook | internal/catalog/facade.go:58-80 | state and answer are those of the value level, enrichment, parsing and every refusal included; a known ISBN is refused; the cache is untouched; the array handed out is not one the stores keep (see CatalogAnswers.AddAnswers) |
| CatalogFacade.Facade.FindBook | internal/catalog/facade.go:86-105 | read-through with a cache fault injected anywhere, a missing book not cached, nothing kept handed out (see CatalogAnswers.FindAnswers) |
| CatalogFacade.Facade.UpdateBook | internal/catalog/facade.go:111-131 | the save stays when the cache write fails; the entry is written under the stored ISBN (see CatalogAnswers.UpdateAnswers) |
| CatalogFacade.Facade.DeleteBook | internal/catalog/facade.go:136-151 | the deletion stays when the eviction fails (see CatalogAnswers.DeleteAnswers) |
| CatalogFacade.Facade.GetBooks | internal/catalog/facade.go:161-166 | the empty question answered without the repository gets the answer the repository would give |
| CatalogAnswers.AddAnswers | internal/catalog/facade.go:58-80 | refusals in order: ISBN, gateway, blank title or authors, taken ISBN; otherwise the book with the trimmed title and authors, the gateway's where the client gave none, and the trimmed ISBN is stored, listed last, answered and not cached |
| CatalogAnswers.FindAnswers | internal/catalog/facade.go:86-105 | the entry if there is one, else the stored book with the ISBN, which is then cached, else BookNotFound, which is not |
| CatalogAnswers.UpdateAnswers | internal/catalog/facade.go:111-131 | an empty patch, a blank field and an unknown id are refused unchanged; otherwise the stored book has its old id, ISBN and place, the trimmed new title and authors where set and the old ones where not; that book is cached and answered; every other book is as it was |
| CatalogAnswers.DeleteAnswers | internal/catalog/facade.go:136-151 | an unknown id is refused unchanged; otherwise the book is gone from map and listing, every other keeps its place, and the entry is gone unless the eviction was refused |
| CatalogTheorems.CacheCoherence | internal/catalog/facade.go:86-151 | after every run with expiring entries and cache faults, ISBNs are unique and an entry whose latest attempted write did not fail is what the repository finds |
| CatalogTheorems.CacheIsInvisible | internal/catalog/facade.go:86-105 | without cache faults every operation of every run answers as with a cache that is always empty |
| CatalogTheorems.FindIsExact | internal/catalog/facade.go:86-151 | after every run with fresh ids, whatever expired and whatever failed: an entry is what the repository finds, and a FindBook that meets no fault answers as the repository alone would, if and only if the ISBN is not stale, that is, its last change was not an update or deletion whose cache write was refused over an older entry still there |
| CatalogTheorems.DeletedBookStillFound | internal/catalog/facade.go:136-151 | it happens: for every book, one refused eviction makes its ISBN stale, and it is found although the repository has no such book |
| CatalogTheorems.ListedByBirth | internal/catalog/facade.go:154-156 | whatever the run, books are listed by first save since last deletion |
| CatalogTheorems.EnrichedAsDocumented | internal/catalog/facade.go:261-283 | adding a book does what the documentation says if and only if the title is not one of spaces only in a request that is otherwise in order |
| CatalogClient.ScriptIsARun | internal/catalog/facade.go:58-166 | the shop after a script is that after the operations its calls amount to, so what holds of every run holds of every session |
| CatalogClient.Client.TakeScribble | internal/catalog/driven/memory/repository.go:144-153 | a write into any array the client holds changes that array only: neither repository nor cache nor another array held |
| CatalogClient.Client.Session | internal/shared/bookcache/memory/in_memory.go:32-69 | calls, listings and writes into any array ever passed or handed out, in any order: the shop, the contents of every array held, and every book, listing and error the client was told are exactly those of the script on values, where a call means what the array passed contained at the call |
| EventBus.CompactCleared | internal/shared/events/memory/event_bus.go:135-148 | clearing a slot takes exactly its subscription out of the live list |
| EventBus.Bus.Subscribe | internal/shared/events/memory/event_bus.go:62-77 | refines appending to the live list, with an id never given before |
| EventBus.Bus.Unsubscribe | internal/shared/events/memory/event_bus.go:71-76 | refines removal from the live list, called once or more |
| EventBus.Bus.SnapshotHandlers | internal/shared/events/memory/event_bus.go:82-99 | the live handlers of the topic in registration order |
| EventBus.Bus.Publish | internal/shared/events/memory/event_bus.go:50-56 | refines delivery to the snapshot, with handlers that subscribe, unsubscribe and publish |
| EventBusTheorems.PublishRunsTheLive | internal/shared/events/memory/event_bus.go:42-56 | after any run, a Publish runs exactly the subscriptions live at its start, in order, each once, whatever the handlers do meanwhile |
| EventBusTheorems.UnsubscribeRemovesOne | internal/shared/events/memory/event_bus.go:58-77 | an unsubscribe removes its own subscription and no other, and repeating it changes nothing |
| EventBusTheorems.PublishReacts | internal/shared/events/memory/event_bus.go:42-56 | what a Publish does to the subscriptions is what its handlers do, one after the other in registration order, each once |
| EventBusTheorems.GoneForGood | internal/shared/events/memory/event_bus.go:131-148 | no run brings back the id of a subscription that is gone |
| ConsumerLifecycle.OthersKeep | internal/lending/auto_loan_on_return.go:103-128 | no tree of calls by other clients registers or removes the consumer's handler |
| ConsumerLifecycle.Consumer.Start | internal/lending/auto_loan_on_return.go:103-112 | subscribes once however often it is called |
| ConsumerLifecycle.Consumer.Stop | internal/lending/auto_loan_on_return.go:116-128 | unsubscribes what Start subscribed, or does nothing |
| ConsumerLifecycle.Consumer.Meanwhile | internal/lending/auto_loan_on_return.go:103-128 | whatever other clients do on the bus, from handlers or not, a started consumer stays subscribed once and a stopped one not at all |
| ConsumerLifecycle.Consumer.Lifecycle | internal/lending/auto_loan_on_return.go:103-128 | after any sequence of Start and Stop with any calls of other clients in between, the bus has one live consumer handler if the last of them was Start and none if it was Stop |
| ChatTheorems.RunKeepsInv | internal/chat/facade.go:64-86 | under every interleaving: the delta channel holds what was sent and not received, both channels respect their bounds, and the frames emitted are accounted for |
| ChatTheorems.FramesAreAPrefix | internal/chat/facade.go:64-86 | the i-th frame carries the content of the gateway's i-th delta, in order, then at most one terminal frame: Done only after everything ever sent was forwarded, an error frame only with the cause of the first failed delta; never more than 8 frames unread |
| ChatTheorems.UncancelledRunDelivers | internal/shared/chatgateway/memory/in_memory.go:42-69 | an uncancelled stream that can go no further has delivered one frame a token, with the token and a space, in order, and then one Done |
| ChatTheorems.RunsAreBounded | internal/chat/facade.go:44-86 | every run is finite, with an explicit bound |
| ChatTheorems.QuietIsFinished | internal/chat/facade.go:64-76 | no deadlock and no leaked goroutine: when nobody can go on, both channels are closed and read out |
| ChatTheorems.CancelledCloses | internal/chat/facade.go:59-76 | a cancelled stream closes both channels even with no reader |
| ChatTheorems.ProducerNeverBlocks | internal/shared/chatgateway/memory/in_memory.go:47 | the in-memory gateway always has room for its next delta |
| ChatTheorems.GatewayFinishesUnread | internal/shared/chatgateway/memory/in_memory.go:55-69 | from any point it finishes by itself within two steps a token and one more |
| ChatTheorems.DoneAfterCancellation | internal/chat/facade.go:79-86 | for every message some run cancelled at the very start delivers every token's frame and Done |

## Left out

- HTTP handlers, DTO mapping, middleware, configuration, migrations and process start-up: plumbing around the flows modelled here.
- The SQL repositories, the Redis client and the OpenAI gateway: a database transaction is modelled as a snapshot with a commit that does not fail, a Redis time-to-live as an entry that may expire at any moment.
- Access control: a constant table, reduced to the question whether the caller's role is member.
- Categories and sample data, and the lookup inside the ISBN gateway: its reply, or its failure, is a parameter of AddBook.
- BookSchema.TrimIsTight: strings are sequences of characters; UTF-8 encoding is not modelled.
- Identifiers and clocks: fresh numbers and integer nanoseconds; the due date is 14 times 24 hours after the loan, without time zones.
- FineMoney.DaysAreTheCeiling: models the documented exact ceiling; the code divides float64 hours, which can lose a remainder of a few nanoseconds over months.
- Failing buses, handler panics, crashes between commit and publication, and the log except for the saga's un-fulfil errors: the in-memory bus always returns nil.
- The agreement of copy status and open loans is proved for sequential runs only: the check and the write in Borrow are not one critical section, and concurrent direct borrows of one copy can both succeed.
- LendingFacade.Facade.ReturnLoan: the sequential facade has no mutexes, as its methods run one at a time; the locks and the interleavings are in SagaMachine.
- LendingFacade.Facade.Start: subscribing is a flag in the lending models, which have the consumer as the sole subscriber; the subscription itself is in ConsumerLifecycle.
- SagaOutcome.ScheduleIndependence: covers concurrent returns without faults and without concurrent borrows, reservations or status changes; with those the outcome does depend on the schedule.
- Transactions.MemoryContext.Run: a context is used for one Run, as the factory hands it out; the work callback is a script of its calls.
- Transactions.DatabaseContext.Run: the live transaction handle that Stage reads from its context argument is not modelled; staged writes go to the one open transaction.
- FinesFacade.Facade.ProcessOverdueLoans: the loans do not change during the batch.
- Copies in the catalog facade: RegisterCopy, FindCopy and the Mark calls are modelled with lending, not again with books.
- CatalogRepository.Repository.SaveBook: the concurrency of the read-write mutexes in repository, cache and bus is not modelled; their operations run one at a time.
- EventBus.Bus.Publish: handlers are identified by number and their errors are absorbed; what a handler does to the bus is any finite tree of calls.
- ChatTheorems.QuietIsFinished: assumes the gateway port's contract that a channel closes after a failed delta; the in-memory gateway has no failures.
- Chat request validation, message conversion and the splitting of a message into tokens: the stream starts from the tokens.
