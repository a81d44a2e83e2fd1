# Embodied reading studio: verified protocols

The studio keeps its state in SQLite tables and runs every service call the same way: it reads rows
outside any transaction, computes new rows in memory, and commits them with `WHERE version = ?` (or,
for outbox events, under a lease token), sometimes after reading again inside the transaction.
Between any two of these steps other calls may commit, workers may crash, leases may run out and the
clock may move. This project models those protocols and proves what they keep over every such
interleaving.

## How the model is built

Each area has the same layers.

- **Rows and state machines** (`ReadingDomain`, `ReviewDomain`, and the first parts of `Outbox`,
  `Archive`, `Enrolment`, `Auth`). A row is a datatype; each state machine step is a function to a
  `Result`. The Go structs that the services mutate are classes (`Assignment`, `Session`, `Review`,
  `Claim`, `Dispute`, `Job`, `Program`), and each method is proved to leave exactly the row, or the
  fault, that the step function names.
- **Protocol** (`ReadingProtocol`, `ReviewProtocol`, and the middle parts of the others). The state
  holds the tables, the clock, and the set of operations in flight, each with the rows it has read and
  the rows it is going to write. Events are reads, computations, commits, crashes and clock ticks, in
  any order. `Run` applies a sequence of events; main results speak about `Run(s, events)` for every
  initial `s` and every `events`, and often about every continuation of it.
- **Safety and results** (`ReadingSafety`, `ReviewSafety`, `ReadingResults`, `ReadingWindows`,
  `ReviewResults`, `ReviewRuns`, and the last parts of the others). One invariant per area, one lemma
  per operation that keeps it, and the results that follow from it.
- **Answers** (`ReadingAnswers`, `ReviewAnswers`, `OutboxAnswers`, `ArchiveAnswers`, `EnrolmentAnswers`,
  `AuthAnswers`). What a call has done once it has committed, told by its request and the rows before
  and after; when it is accepted; and what goes on working: leases last, retries wait, sessions that
  nobody ended still authenticate. These do not rest on the specification functions but pin them down.
- **Stores** (`ReadingStore`, `ReviewStore`, `OutboxStore`, `ArchiveStore`, `EnrolmentStore`,
  `AuthStore`). The SQL statements and the service methods as imperative code over mutable tables.
  An argument `others` stands for everybody else: wherever the code holds no transaction, the tables
  may become `others(point, tables)`. Each service method is proved, for every `others`, to do what
  the protocol's functions say: the same reads, the same fault, the same transaction on the tables it
  meets.

`Versions` holds what makes optimistic versioning safe: a table only advances, so a snapshot that
still has the stored version is the stored row. `TextTime` says exactly when comparing timestamps as
text is comparing instants.

Identifiers are natural numbers with 0 for the empty string, instants are integers with 0 for Go's
zero time. A Go call that fails returns a fault kind; `Meets(spec, before, after, err)` says that a
method succeeded with the specified value or failed with the specified fault and changed nothing.

## Where the code does not do what its documentation says

Lines of README.md here and in the comments are those of the repository's own README.md.

- README.md:35 keeps reservations within the program window. `MoveReservation` never looks at it. A
  run that breaks the promise is `AMoveLeavesTheWindow`; it is kept exactly by the moves that ask for
  a window inside (`OnlyMovesLeaveTheWindow`, `MovesInsideKeepTheWindow`).
- README.md:39 describes a dispute process. `ResolveDispute` takes its expected version after an
  in-memory step that already raised it, so no dispute leaves its first row: `DisputesStayOpen`.
- README.md:41 says when a program can be archived. The readiness query counts the worker's own
  unexpired lease, which success needs: `NothingIsEverArchived`, `ProcessNeverSucceeds`. The query
  compares lease and clock reading as text, so this reason holds for readings whose printed fraction
  is not continued by that of the lease end: at 00.5Z a lease until 00.55Z is not counted
  (`RunningLeaseLooksExpiredExactlyWhen`; the sweep's filter and the outbox compare in the same way).
  A second reason does not depend on any comparison: the worker also needs a program in review
  (`ProcessNeedsAProgramInReview`), and no program gets there, since every active
  member is counted as incomplete: `NeverReady`, `NoProgramReachesReview`.
- README.md:49 promises that expired work is recovered. For reviews and archive jobs it can be
  (`ExpiredReviewIsClaimable`, `ExpiredJobIsClaimable`), for outbox events it is not
  (`ExpiredLeaseIsNeverRecovered`).
- The attempts of an archive job can pass their bound (`AttemptsOverrun`), exactly by takeovers
  (`OverrunIsATakeover`, `WithoutTakeoversAttemptsAreBounded`).
- README.md:34 speaks of idempotency keys for joining. A join that adds a member is idempotent
  (`AddingJoinIsIdempotent`). One that is answered after a conflict, with a row that was there
  before, records nothing, and its replay is refused once enrolment has closed (`ReplayIsRefused`, and exactly then:
  `ReplayedJoin`, `JoinOfAMember`). `Join` also looks a key up as sent and stores it trimmed; the HTTP
  handler, its one caller, trims keys itself, so that difference does not arise.
- Trimmed fractions do not sort as text, so the conflict query can miss a conflict
  (`ConflictQueryMissesHalfSeconds`) and can find one that is none
  (`ConflictQueryFindsDisjointWindows`); `ConflictQueryIsRightExactlyWhen` says when it is right.

## Model

| member | source | states |
|---|---|---|
| `Versions.AdvancesTransitive` | internal/storage/sqlite/store.go:167-176 | Advancing (no row lost, no row changed without a larger version) composes, so it holds across whole runs |
| `ReadingDomain.ConflictIsDoubleBooking` | internal/domain/reading/assignment.go:72-81 | Two reservations conflict exactly when some page is held by both at some instant |
| `ReadingDomain.Assignment.Start` | internal/domain/reading/assignment.go:83-97 | Takes the lease with the next token from a reserved row, or names the fault and leaves the copy alone |
| `ReadingDomain.Assignment.Submit` | internal/domain/reading/assignment.go:99-109 | Only owner and token of the lease submit; lease expiry is not looked at |
| `ReadingDomain.Assignment.Release` | internal/domain/reading/assignment.go:111-124 | Released and expired rows are a success without a new version; submitted rows a conflict |
| `ReadingDomain.Assignment.Expire` | internal/domain/reading/assignment.go:126-142 | Token, state and deadline faults in that order, else expired with the lease cleared |
| `ReadingDomain.Session.Start` | internal/domain/reading/session.go:52-62 | From prepared or reopened only |
| `ReadingDomain.Session.Submit` | internal/domain/reading/session.go:64-74 | From active only |
| `ReadingDomain.Session.Abandon` | internal/domain/reading/session.go:88-101 | From prepared, active or reopened only |
| `ReadingSafety.ReserveKeeps` | internal/service/reading.go:64-77 | A committed reservation keeps non-overlap, coupling and evidence containment, and the tables only advance |
| `ReadingSafety.MoveKeeps` | internal/service/reading.go:106-125 | The same for a move, however old its snapshot was |
| `ReadingSafety.StartKeeps` | internal/service/reading.go:162-181 | The same for a start, which puts lease and session in place together |
| `ReadingSafety.AbandonKeeps` | internal/service/reading.go:205-220 | The same for an abandonment, including a release that rewrites an unchanged row |
| `ReadingSafety.SubmitKeeps` | internal/service/reading.go:308-330 | The same for a submission with all of its evidence |
| `ReadingSafety.ExpireKeeps` | internal/service/reading.go:348-355 | The same for one write of the sweep |
| `ReadingSafety.ObservationsInserted` | internal/storage/sqlite/program_reading.go:228-232 | Inserting keeps every older observation, puts exactly the new ones under their ids, and keeps positions unique within a session |
| `ReadingSafety.ClaimsInserted` | internal/storage/sqlite/evidence_review.go:20-26 | Inserting keeps every older claim and puts exactly the new ones under their ids |
| `ReadingSafety.AcceptedEvidence` | internal/service/reading.go:273-300 | The checking loops find no fault exactly when positions are distinct and positive and all pages lie in the section and the edition |
| `ReadingSafety.RunKeeps` | internal/service/reading.go:28-364 | Every sequence of events keeps the invariant and only advances the tables |
| `ReadingResults.NeverDoubleBooked` | internal/service/reading.go:64-127 | In every run, no page is booked by two live reservations of one program and edition at one instant |
| `ReadingResults.CommitOverwritesOnlySeenRows` | internal/storage/sqlite/program_reading.go:173-226 | Whenever a transaction commits, every row it overwrites is the row it had read, and every row it inserts is new |
| `ReadingResults.SameVersionIsSameRow` | internal/storage/sqlite/store.go:167-176 | No ABA: a snapshot with the stored version is the stored row |
| `ReadingResults.ReserveCommitsExactlyWhenFree` | internal/service/reading.go:64-77 | A reservation commits if and only if its id is new and no stored reservation conflicts |
| `ReadingResults.MoveCommitsExactlyWhenFree` | internal/service/reading.go:106-120 | A move commits if and only if the row is unchanged and no other reservation conflicts with the new place |
| `ReadingResults.SubmitCommitsExactlyWhenUnchanged` | internal/service/reading.go:308-330 | A submission commits if and only if session and section are unchanged and its ids are new; its positions are never taken |
| `ReadingResults.CommitsExactlyWhenUnchanged` | internal/service/reading.go:139-221 | A start, an abandonment or an expiry commits if and only if nothing it read has changed |
| `ReadingResults.SessionsFollowAssignments` | migrations/001_initial.sql:142 | A reserved row has no session, a leased one exactly its lease owner's active session, sessions are submitted exactly with their assignment, abandoned only on released or expired ones, and the lease token counts the sessions |
| `ReadingResults.ExpiredIsNeverSubmitted` | internal/service/reading.go:301-330 | A session whose assignment expired is never submitted, in any continuation |
| `ReadingResults.ClaimsLieInTheirSectionForEver` | internal/service/reading.go:288-300 | A stored claim lies in the pages of its section and that in the edition, and neither changes in any continuation |
| `ReadingResults.ObservationsLieInTheirSection` | internal/service/reading.go:273-287 | The same place for observations, with positions unique per session |
| `ReadingResults.OverlappingClaimsHaveDisjointWindows` | internal/service/reading.go:93-121 | Overlapping claims from different sections of one program and edition come from disjoint windows |
| `ReadingResults.OnlyDueRowsExpire` | internal/service/reading.go:337-364 | Only the sweep expires a row, and only one whose window end or lease was reached at the sweep's clock reading |
| `ReadingResults.ExpireNeedsTheFilter` | internal/storage/sqlite/program_reading.go:153-171 | Remark: `Expire` passes exactly on the listed rows and on every unused reservation; the query protects those |
| `ReadingResults.MoveReachesAnyFreeWindow` | internal/service/reading.go:84-127 | Remark: an unused reservation moves to every free window of its edition, whatever the program |
| `ReadingWindows.OnlyMovesLeaveTheWindow` | internal/service/reading.go:56-127 | While all reservations are inside their programs' windows, an event takes one outside if and only if it commits a move that asked for a window outside |
| `ReadingWindows.MovesInsideKeepTheWindow` | internal/service/reading.go:56-127 | If every requested move is inside, every reservation of every run is |
| `ReadingWindows.AMoveLeavesTheWindow` | internal/service/reading.go:84-127 | A run in which a reservation ends up outside |
| `ReadingAnswers.SubmittedEvidenceIsStored` | internal/service/reading.go:273-327 | A submission that commits, however late, stores every claim and observation that was handed in, as it was handed in and under its own id, and no other |
| `ReadingAnswers.SubmissionFinishesItsSection` | internal/service/reading.go:262-314 | It was made by the session's own member holding the lease, finishes session and section together, and touches no other row |
| `ReadingAnswers.SubmitIsAcceptedExactlyWhen` | internal/service/reading.go:249-307 | What is required of rows and evidence for a submission to be computed, and that nothing else is |
| `ReadingAnswers.ReserveIsAcceptedExactlyWhen` | internal/service/reading.go:28-63 | A reservation is computed if and only if program, member and edition are active, the pages lie in the edition and the window in the program |
| `ReadingAnswers.ReservationIsAsAsked` | internal/service/reading.go:60-80 | A committed reservation is stored with the member, pages and window asked for, and nothing else changes |
| `ReadingAnswers.MoveIsAsAskedByTheMember` | internal/service/reading.go:84-127 | A committed move was asked for by the reservation's own member while it was unused, and gives it the pages and window asked for |
| `ReadingAnswers.MoveIsAcceptedExactlyWhen` | internal/service/reading.go:93-105 | A move is computed if and only if its member asks for a proper place in the edition of an unused reservation |
| `ReadingAnswers.StartIsAcceptedExactlyWhen` | internal/service/reading.go:139-166 | A session is computed if and only if the reservation's active member asks inside the reserved window, for a lease of positive length |
| `ReadingAnswers.StartedInsideItsWindow` | internal/service/reading.go:139-186 | A committed start happened inside its window and puts session and lease in place, the lease ending the length asked for after the reading |
| `ReadingAnswers.SweepTakesAStartFromItsLeaseEnd` | internal/storage/sqlite/program_reading.go:153-171 | Until its row is rewritten, the sweep lists a started reservation if and only if its reading has reached the end of that lease or of the window |
| `ReadingAnswers.ListsExactly` | internal/storage/sqlite/program_reading.go:153-171 | In reachable states the sweep lists a row if and only if it is reserved past its window or being read past its window or lease |
| `ReadingAnswers.AbandonmentReleases` | internal/service/reading.go:188-221 | A committed abandonment was asked for by the session's member, ends the session and releases the reservation unless the sweep has it |
| `ReadingAnswers.AbandonIsAcceptedExactlyWhen` | internal/service/reading.go:188-204 | Who can abandon what |
| `ReadingAnswers.ExpiryMarksItsRow` | internal/service/reading.go:348-355 | One turn of the sweep marks its row expired without a lease, and touches nothing else |
| `ReadingAnswers.ReadsStayInTheTenant` | internal/storage/sqlite/program_reading.go:128-130 | A call gets hold of exactly the rows of its own tenant |
| `ReadingStore.Page.Normalize` | internal/repository/repository.go:23-34 | A limit between 1 and 100 with 25 for none and 100 for too much, an offset of at least 0, and valid requests kept |
| `ReadingStore.Store.FindAssignmentConflicts` | internal/storage/sqlite/program_reading.go:132-151 | Lists, once each and by window start and first page, exactly the other rows for which `Conflicts` holds |
| `ReadingStore.Store.ListExpiredAssignments` | internal/storage/sqlite/program_reading.go:153-171 | Of all due rows, once each and by window end and id, exactly the page asked for |
| `ReadingStore.Store.InsertAssignment` | internal/storage/sqlite/program_reading.go:90-97 | Adds a row with a new id, else a conflict without change |
| `ReadingStore.Store.UpdateAssignment` | internal/storage/sqlite/program_reading.go:173-181 | Replaces the row exactly at the expected version, else a conflict without change |
| `ReadingStore.Store.InsertReadingSession` | internal/storage/sqlite/program_reading.go:183-190 | At most one session per tenant and assignment |
| `ReadingStore.Store.UpdateReadingSession` | internal/storage/sqlite/program_reading.go:218-226 | Replaces the row exactly at the expected version, else a conflict without change |
| `ReadingStore.Store.Reserve` | internal/service/reading.go:28-82 | Does what `Reserve` and its transaction say, whatever others commit in between |
| `ReadingStore.Store.MoveReservation` | internal/service/reading.go:84-127 | The same for `Move`, with the missing row answered first |
| `ReadingStore.Store.WriteMove` | internal/service/reading.go:106-120 | The transaction body: conflicts again, then the guarded update, or nothing |
| `ReadingStore.Store.Start` | internal/service/reading.go:139-186 | The same for `Start`; a failing session insert rolls the assignment back |
| `ReadingStore.Store.Abandon` | internal/service/reading.go:188-221 | The same for `Abandon`, with others between the two reads and before the transaction |
| `ReadingStore.Store.BuildEvidence` | internal/service/reading.go:273-300 | The loops return the first fault in reading order, or for every input, in the order given, its id with the observation or claim made of it |
| `ReadingStore.Store.InsertSubmission` | internal/service/reading.go:315-327 | All evidence goes in, or none |
| `ReadingStore.Store.WriteSubmission` | internal/service/reading.go:308-330 | The transaction body: session, assignment and evidence together, or nothing |
| `ReadingStore.Store.Submit` | internal/service/reading.go:249-335 | Does what `Submit` and its transaction say, with the same fault first, whatever others commit in between |
| `ReadingStore.Store.ExpireOne` | internal/service/reading.go:348-361 | A listed row is expired exactly when nobody has changed it since |
| `ReadingStore.Store.ExpireAssignments` | internal/service/reading.go:337-364 | Lists due rows, all of them when they fit a page and else those whose windows end first; turn by turn, a row is moved if and only if the turn meets it as listed, and then stays as written; the count is the number of moved rows; every other listed row had been changed by somebody else |
| `ReadingStore.Store.ExpireListed` | internal/service/reading.go:344-363 | The loop alone: the same for any listed rows |
| `ReadingStore.Store.ExpireNext` | internal/service/reading.go:344-362 | One turn moves its row, and counts it, if and only if it meets the row as listed |
| `ReadingStore.SweepIsDetermined` | internal/service/reading.go:337-364 | What is promised of the sweep leaves no choice: given the listed rows and what others do, the tables met, the rows moved, their number and the final table are fixed |
| `TextTime.WholeSecondOrder` | internal/storage/sqlite/store.go:178-183 | Fixed-width UTC stamps of years 0 to 9999 sort as text by instant, then by what follows |
| `TextTime.FractionOrder` | internal/storage/sqlite/store.go:178-183 | Trimmed fractions alone keep the order of the nine digits |
| `TextTime.ClosedOrder` | internal/storage/sqlite/store.go:178-183 | The closing Z turns exactly the order of proper prefixes around |
| `TextTime.TextOrderIsTimeOrderUnlessConfusable` | internal/storage/sqlite/store.go:178-194 | Text order is time order if and only if neither printed fraction continues the other within one second |
| `TextTime.EqualDigitsAreNotConfusable` | internal/storage/sqlite/store.go:178-183 | Stamps with equally many printed digits are always ordered right |
| `TextTime.ConflictQueryIsRightExactlyWhen` | internal/storage/sqlite/program_reading.go:132-137 | The query's window test is right about two windows if and only if neither comparison is confusable, or only one is and the other decides alone, or both fail in turn |
| `TextTime.ConflictQueryIsExact` | internal/storage/sqlite/program_reading.go:132-137 | In particular it is right whenever the compared bounds print equally many digits, such as whole seconds |
| `TextTime.ConflictQueryMissesHalfSeconds` | internal/storage/sqlite/program_reading.go:132-137 | Two valid windows that overlap by half a second and are not found |
| `TextTime.ConflictQueryFindsDisjointWindows` | internal/storage/sqlite/program_reading.go:132-137 | Two valid windows that do not overlap and are found |
| `TextTime.RunningLeaseLooksExpiredExactlyWhen` | internal/storage/sqlite/evidence_review.go:243 | A lease that still runs is not counted as running if and only if its printed fraction continues that of the clock reading in the same second |
| `TextTime.ExpiredLeaseLooksRunningExactlyWhen` | internal/storage/sqlite/evidence_review.go:243 | A lease that has run out is counted as running exactly the other way round |
| `ReviewDomain.Review.Claim` | internal/domain/review/assignment.go:49-68 | A new token and lease for an undecided review without an unexpired lease, else the named fault and no change |
| `ReviewDomain.Review.Renew` | internal/domain/review/assignment.go:70-81 | Only the holder of an unexpired lease extends it, keeping the token; it then ends the length asked for after the reading |
| `ReviewDomain.Review.Complete` | internal/domain/review/assignment.go:83-93 | Only the holder of an unexpired lease decides |
| `ReviewDomain.Claim.Assign` | internal/domain/evidence/claim.go:57-69 | From pending or disputed only |
| `ReviewDomain.Claim.Decide` | internal/domain/evidence/claim.go:71-83 | Only for its current review, with the outcome as the new state |
| `ReviewDomain.Claim.Dispute` | internal/domain/evidence/claim.go:85-94 | From rejected only, dropping the current review |
| `ReviewDomain.Claim.Resolve` | internal/domain/evidence/claim.go:96-107 | From assigned only, for its current review |
| `ReviewDomain.Dispute.Assign` | internal/domain/evidence/dispute.go:44-55 | From open only, never to the one who opened it |
| `ReviewDomain.Dispute.Resolve` | internal/domain/evidence/dispute.go:57-75 | Only by the assigned resolver |
| `ReviewSafety.AssignKeeps` | internal/service/review.go:47-65 | A committed assignment met the claim it had read and keeps the invariant of claims, reviews, decisions and disputes |
| `ReviewSafety.ClaimKeeps` | internal/service/review.go:72-96 | The same for a lease claim, which adds one to token, attempts and the history at once |
| `ReviewSafety.RenewKeeps` | internal/service/review.go:98-115 | The same for a renewal |
| `ReviewSafety.DecideKeeps` | internal/service/review.go:155-176 | The same for a decision, which met both rows it had read |
| `ReviewSafety.DisputeKeeps` | internal/service/review.go:200-211 | The same for opening a dispute |
| `ReviewSafety.ResolveNeverCommits` | internal/service/review.go:239-268 | The transaction of `ResolveDispute` fails on all reachable tables |
| `ReviewSafety.RunKeeps` | internal/service/review.go:19-270 | Every sequence of events keeps the invariant and only advances the tables |
| `ReviewResults.TokenCountsClaims` | internal/domain/review/assignment.go:49-68 | The fencing token is the attempt count and the number of committed lease claims |
| `ReviewResults.CommitOverwritesOnlySeenRows` | internal/storage/sqlite/evidence_review.go:64-160 | Whenever a transaction commits, however late, every row it overwrites is the row it had read |
| `ReviewResults.SameVersionIsSameRow` | internal/storage/sqlite/store.go:167-176 | No ABA for claims and reviews |
| `ReviewResults.CommitsExactlyWhenUnchanged` | internal/service/review.go:72-181 | A lease claim, renewal or decision commits if and only if nothing it read has changed and its decision id is new |
| `ReviewResults.AssignCommitsExactlyOnce` | internal/service/review.go:19-70 | A review is assigned if and only if the claim is unchanged and this person has had no review of it |
| `ReviewResults.OnlyTheFirstRejectionIsDisputed` | internal/service/review.go:183-213 | A dispute is opened if and only if the claim is unchanged since its first rejection; a second rejection is final |
| `ReviewResults.TakeoverOnlyAfterExpiry` | internal/domain/review/assignment.go:54-62 | A held lease changes hands only by a claim whose clock reading had reached its end, with the next token |
| `ReviewResults.OnlyTheNewestHolderDecides` | internal/service/review.go:131-181 | A review is decided only by its own assignee, as holder of the newest token, within the lease when computed |
| `ReviewResults.DecisionsAreDecidedReviews` | migrations/001_initial.sql:203 | Decided reviews have exactly one decision row, others none |
| `ReviewResults.ClaimHistoryBound` | migrations/001_initial.sql:190-218 | A claim's version never exceeds 6 and it gets at most two decisions |
| `ReviewRuns.TheBoundIsReached` | internal/service/review.go:19-213 | A run that ends with a claim at version 6 and two decisions on it |
| `ReviewResults.DecisionsAreIndependent` | internal/service/review.go:19-70 | No decision is by the claim's author, and two decisions on one claim are by different people |
| `ReviewResults.ClaimStateIsTheRecordedOutcome` | internal/service/review.go:143-176 | A verified or rejected claim names a decided review whose recorded outcome is that state |
| `ReviewResults.DisputesStayOpen` | internal/service/review.go:239-261 | In every run every dispute is open at version 1 and no claim is resolved |
| `ReviewRuns.AStoredDispute` | internal/service/review.go:183-213 | A run that stores a dispute |
| `ReviewAnswers.AssignedAsAsked` | internal/service/review.go:19-70 | A committed assignment queues a review of the claim asked for, for the person asked for, and touches nothing else |
| `ReviewAnswers.ClaimGrantsALease` | internal/service/review.go:72-96 | A committed lease claim was asked for by the review's own reviewer when no lease ran, and grants one of the length asked for under the next token |
| `ReviewAnswers.RenewExtendsTheLease` | internal/service/review.go:98-115 | A committed renewal was asked for by the holder of the newest token while the lease ran, and makes it end the length asked for after its reading |
| `ReviewAnswers.LeaseHoldsUntilItsEnd` | internal/domain/review/assignment.go:49-93 | Before its end a lease can be renewed and decided under by its holder only and claimed by nobody; from its end on it can be claimed by anybody and used by nobody |
| `ReviewAnswers.LeaseEndsProperly` | internal/domain/review/assignment.go:49-93 | In every run the row of a lease is first rewritten by a claim with a reading at or past its end, or by its own holder with a reading before it |
| `ReviewAnswers.RenewedLeaseLasts` | internal/domain/review/assignment.go:70-81 | In every run, after a renewal and until the row is rewritten: nobody takes the review with a reading before reading plus length, anybody can from then on, and the holder can decide exactly before |
| `ReviewAnswers.GrantedLeaseLasts` | internal/domain/review/assignment.go:49-68 | The same for the lease that a claim grants |
| `ReviewAnswers.DecidedAsAsked` | internal/service/review.go:131-181 | A committed decision was made by the reviewer under the newest lease while it ran, and stores the outcome asked for in decision and claim |
| `ReviewAnswers.DisputedAsAsked` | internal/service/review.go:183-213 | A committed dispute was opened by the claim's author against a rejection, and touches nothing else |
| `ReviewAnswers.ReviewCallsAreAcceptedExactlyWhen` | internal/service/review.go:19-213 | What is required of the caller and the rows in hand for each call to compute something |
| `ReviewAnswers.ResolvedByAnother` | internal/domain/evidence/dispute.go:44-75 | A dispute row could only be resolved by the one it was assigned to, who did not open it |
| `ReviewResults.ExpiredReviewIsClaimable` | internal/domain/review/assignment.go:49-68 | A stored review can be claimed if and only if it is undecided and not under an unexpired lease |
| `ReviewStore.Store.UpdateClaim` | internal/storage/sqlite/evidence_review.go:64-72 | Replaces the row exactly at the expected version, else a conflict without change |
| `ReviewStore.Store.UpdateReviewAssignment` | internal/storage/sqlite/evidence_review.go:152-160 | Replaces the row exactly at the expected version, else a conflict without change |
| `ReviewStore.Store.UpdateDispute` | internal/storage/sqlite/evidence_review.go:99-107 | Replaces the row exactly at the expected version, else a conflict without change |
| `ReviewStore.Store.InsertReviewAssignment` | internal/storage/sqlite/evidence_review.go:120-125 | At most one review per claim and person |
| `ReviewStore.Store.InsertReviewDecision` | internal/storage/sqlite/evidence_review.go:162-166 | At most one decision per review |
| `ReviewStore.Store.InsertClaimDispute` | internal/storage/sqlite/evidence_review.go:74-80 | At most one dispute per claim |
| `ReviewStore.Store.Assign` | internal/service/review.go:19-70 | Does what `Assign` and its transaction say, whatever others commit in between |
| `ReviewStore.Store.ClaimReview` | internal/service/review.go:72-96 | The same for `Claim` |
| `ReviewStore.Store.RenewReview` | internal/service/review.go:98-115 | The same for `Renew` |
| `ReviewStore.Store.WriteDecision` | internal/service/review.go:155-176 | The transaction body: version, token and owner again, then review, claim and decision together, or nothing |
| `ReviewStore.Store.Decide` | internal/service/review.go:131-181 | Does what `Decide` and its transaction say, with others between the two reads and before the transaction |
| `ReviewStore.Store.OpenDispute` | internal/service/review.go:183-213 | The same for `OpenDispute` |
| `ReviewStore.Store.WriteResolution` | internal/service/review.go:257-268 | The transaction body: dispute and claim together, or nothing |
| `ReviewStore.Store.ResolveDispute` | internal/service/review.go:223-270 | Expects the version that its in-memory assignment produced, as the code does |
| `Outbox.BackoffShape` | internal/worker/outbox.go:76-84 | Backoff lies within 1 and 128 seconds, never shrinks, and doubles below the cap |
| `Outbox.AttemptsAreBounded` | internal/storage/sqlite/audit_outbox.go:55-115 | Token equals attempts, attempts never exceed the bound, a waiting event has attempts left and a permanent failure none |
| `Outbox.FinalIsAbsorbing` | internal/storage/sqlite/audit_outbox.go:87-115 | Delivered and permanently failed events never change |
| `Outbox.FailJudgesTheCurrentAttempt` | internal/storage/sqlite/audit_outbox.go:97-115 | The separate read and write of a failure judge the current attempt count, thanks to the token guard |
| `Outbox.WorkIsBounded` | internal/worker/outbox.go:29-47 | The claims, completions and failures that any run performs are bounded by a measure over all events plus the inserts |
| `Outbox.WorkPerEvent` | internal/worker/outbox.go:29-47 | From an empty outbox, at most twice the attempt bound per inserted event |
| `Outbox.OnlyTheHolderFreesAnExpiredLease` | internal/storage/sqlite/audit_outbox.go:59-115 | After a lease has run out, a statement changes the event if and only if it is the failure of its own holder |
| `Outbox.ExpiredLeaseIsNeverRecovered` | internal/storage/sqlite/audit_outbox.go:59-115 | Without that failure the event stays leased through every run of later statements |
| `Outbox.ACrashedWorkerStrandsItsEvent` | internal/storage/sqlite/audit_outbox.go:55-85 | A run from the empty outbox to an event under a lease until 15, which no later statement of anybody else changes |
| `OutboxAnswers.FailedEventWaits` | internal/storage/sqlite/audit_outbox.go:97-115 | In every run, after a failure that leaves attempts, statements with readings before the retry time leave the event as it is, and then a claim takes it if and only if its reading has reached that time and no due event is older |
| `OutboxAnswers.BackoffIsServed` | internal/worker/outbox.go:38-46 | In particular for the retry time of the worker: its reading plus the backoff of the attempt, at least a second later |
| `OutboxAnswers.LeasedEventIsItsHolders` | internal/storage/sqlite/audit_outbox.go:87-115 | In every run a leased event is changed by exactly two statements, its holder's completion before the end of the lease and its holder's failure, and this is what they write |
| `OutboxAnswers.ClaimWrites` | internal/storage/sqlite/audit_outbox.go:55-85 | In every run a claim takes exactly the oldest due event, until its reading plus the length asked for |
| `OutboxAnswers.InsertWrites` | internal/storage/sqlite/audit_outbox.go:21-28 | A new event is due at once |
| `OutboxStore.Store.InsertOutbox` | internal/storage/sqlite/audit_outbox.go:21-28 | Is the insert step, with a conflict exactly on a known id |
| `OutboxStore.Store.FirstDueEvent` | internal/storage/sqlite/audit_outbox.go:59-65 | Finds the due event that is first by creation and id, or none is due |
| `OutboxStore.Store.ClaimOutbox` | internal/storage/sqlite/audit_outbox.go:55-85 | Is the claim step on that event, or nothing is due |
| `OutboxStore.Store.CompleteOutbox` | internal/storage/sqlite/audit_outbox.go:87-95 | Is the completion step, accepted exactly from the holder of an unexpired lease |
| `OutboxStore.Store.FailOutbox` | internal/storage/sqlite/audit_outbox.go:97-115 | Is the failure step on the tables it meets after its read, with others in between |
| `OutboxStore.Store.Run` | internal/worker/outbox.go:29-47 | One turn: the first due event is claimed, then completed or failed with backoff, whatever others do meanwhile; the errors are those of the dispatch and of the statement, joined |
| `Archive.WriteKeeps` | internal/service/archive.go:70-161 | Every committed write of a worker met the row it had read, is never the closing one, and keeps the invariant |
| `Archive.AttemptsBalance` | internal/domain/archive/job.go:50-124 | Through crashes, takeovers and stale workers, attempts = token = claims = takeovers + failures + the one held, and failures stay within the bound |
| `Archive.WithoutTakeoversAttemptsAreBounded` | internal/domain/archive/job.go:50-74 | A job that was never taken over has at most the allowed claims |
| `Archive.OverrunIsATakeover` | internal/domain/archive/job.go:50-74 | A commit passes the bound if and only if it claims a job at the bound, and then it is a takeover |
| `Archive.AttemptsOverrun` | internal/domain/archive/job.go:50-74 | A run with two claims of a job that allows one attempt |
| `Archive.ExpiredJobIsClaimable` | internal/domain/archive/job.go:55-65 | Any job whose lease ran out can be loaded, claimed and committed by anybody |
| `Archive.FinishedIsAbsorbing` | internal/domain/archive/job.go:50-124 | Complete and permanently failed jobs never change, in any run from any table of jobs; no run from the empty store completes one, so for complete jobs this says what would hold |
| `Archive.CommitOverwritesOnlySeenRows` | internal/storage/sqlite/seminar_archive.go:121-129 | Whenever a worker's write commits, the row it overwrites is the row it had read |
| `Archive.NothingIsEverArchived` | internal/service/archive.go:77-146 | With a clock that does not go back, no run stores a snapshot or completes a job |
| `Archive.AJobIsWritten` | internal/service/archive.go:70-92 | A run that takes a job as far as writing under an unexpired lease |
| `ArchiveStore.Job.Claim` | internal/domain/archive/job.go:50-74 | Faults in the code's order; the attempt bound is not looked at |
| `ArchiveStore.Job.BeginWrite` | internal/domain/archive/job.go:76-84 | Only the holder of an unexpired lease |
| `ArchiveStore.Job.Succeed` | internal/domain/archive/job.go:86-100 | Only the holder of an unexpired writing lease |
| `ArchiveStore.Job.Fail` | internal/domain/archive/job.go:102-124 | Only the holder, expired or not; permanent at the bound |
| `ArchiveStore.Store.InsertArchiveJob` | internal/storage/sqlite/seminar_archive.go:86-93 | At most one job per program |
| `ArchiveStore.Store.UpdateArchiveJob` | internal/storage/sqlite/seminar_archive.go:121-129 | Replaces the row exactly at the expected version, else a conflict without change |
| `ArchiveStore.Store.ReadyForArchive` | internal/repository/repository.go:103-105 | Ready if and only if the rest is and no archive lease of the program is unexpired |
| `ArchiveStore.Store.FailJob` | internal/service/archive.go:148-161 | Fails the worker's own copy under its version and returns the cause; else the fault of the failing step, and no change |
| `ArchiveStore.Store.CompleteJob` | internal/service/archive.go:123-145 | Snapshot, job and program together if and only if ready, first and both rows unchanged, else a conflict and no change |
| `ArchiveStore.Store.Process` | internal/service/archive.go:70-146 | For whatever others commit at each point, leaves exactly the tables and answers exactly the fault of `ProcessOutcome` |
| `ArchiveStore.Store.ProcessLeased` | internal/service/archive.go:81-146 | The same from the written claim on, with `LeasedOutcome` |
| `ArchiveStore.Store.ProcessWriting` | internal/service/archive.go:91-146 | The same from the written begin on, with `WritingOutcome` |
| `ArchiveStore.Store.ProcessChecked` | internal/service/archive.go:99-146 | The same from the readiness answer on, with `CheckedOutcome` |
| `ArchiveStore.ProcessNeverSucceeds` | internal/service/archive.go:77-146 | When others keep the rules for job rows and the clock does not go back, every outcome is a fault, only advances the jobs and stores no snapshot |
| `ArchiveStore.ProcessNeedsAProgramInReview` | internal/service/archive.go:115-119 | Without a program in review every outcome is a fault, whatever others do to the jobs and however lease ends compare |
| `ArchiveAnswers.ProcessGivesUp` | internal/service/archive.go:70-161 | When nobody else touches the job and writing begins within the lease, the job is given up: not held, one attempt more, failed for good exactly at the bound and else waiting for the backoff; unless the lease has run out by the last reading |
| `ArchiveAnswers.UndisturbedWorkerGivesUp` | internal/service/archive.go:91-103 | A worker that nobody disturbs answers that the program is not ready, gives its job up and changes nothing else |
| `ArchiveAnswers.CancelledWorkerGivesUp` | internal/service/archive.go:81-83 | A worker cancelled after its claim gives its job up |
| `ArchiveAnswers.LateWorkerLeavesItsLease` | internal/service/archive.go:84-87 | A worker whose lease runs out before it begins to write leaves the job under that lease |
| `ArchiveAnswers.UnclaimableJobIsLeft` | internal/service/archive.go:70-80 | A job that is missing, finished, held or not yet due is left as it is |
| `ArchiveAnswers.ClosingWouldArchive` | internal/service/archive.go:112-145 | If the closing could come about it would complete the job, archive the program and store the snapshot together |
| `ArchiveAnswers.JobClaimableExactlyWhen` | internal/domain/archive/job.go:50-74 | In every run a job can be claimed if and only if its lease has run out or its time has come |
| `ArchiveAnswers.WorkerStepsExactly` | internal/domain/archive/job.go:50-124 | What a worker computes from the row in its hands, and when |
| `ArchiveAnswers.WorkerWritesItsRow` | internal/storage/sqlite/seminar_archive.go:121-129 | In every run a committed write replaces exactly its own row by what was computed |
| `ArchiveAnswers.RequestWrites` | internal/service/archive.go:39-57 | A requested job is queued, due at once, and the only one of its program |
| `Enrolment.NeverReady` | internal/storage/sqlite/evidence_review.go:236-237 | No tables make any program ready for review |
| `Enrolment.CreateKeeps` | internal/service/program.go:50-62 | A new program with its coordinator as first member keeps capacity, uniqueness and keys |
| `Enrolment.JoinKeeps` | internal/service/program.go:136-177 | So does a join, whatever it answers |
| `Enrolment.AddAllAdds` | internal/service/program.go:218-239 | A batch that goes through makes exactly its users members and adds exactly its length |
| `Enrolment.CapacityIsKept` | internal/service/program.go:75-165 | Active members never exceed capacity, and an active program has at least two although they are counted outside the transaction |
| `Enrolment.OneRowPerMember` | migrations/001_initial.sql:101 | One row per user and program, which no continuation changes |
| `Enrolment.JoinOfAMember` | internal/service/program.go:136-188 | A join by a member never changes the store, and answers with the member row if and only if the key is on record or enrolment is open |
| `Enrolment.BatchIsAllOrNothing` | internal/service/program.go:196-250 | A batch adds all of its users, or leaves the tables as they are |
| `Enrolment.ReplayedJoin` | internal/service/program.go:120-188 | After an answered join and any continuation of the run, the identical call leaves the store as it is, and gets the same answer if and only if its key is on record or enrolment is open |
| `Enrolment.AddingJoinIsIdempotent` | internal/httpapi/api.go:148-157 | A join that added a member, under a trimmed key as the handler sends it, returns the same member and leaves the store unchanged when repeated after any continuation |
| `Enrolment.ReplayIsRefused` | internal/service/program.go:178-184 | A run in which a member added by a batch joins under a trimmed key and is answered, and the identical call is refused after enrolment has closed |
| `Enrolment.NoProgramReachesReview` | internal/service/program.go:252-289 | In every run every program is draft, enrolling or active |
| `EnrolmentAnswers.NewMemberJoinsExactlyWhen` | internal/service/program.go:136-177 | In every run a newcomer's join under an unused key succeeds if and only if the program takes members and fewer than its capacity are active, adds just that member and record, and else fails with the fault of the first check |
| `EnrolmentAnswers.BatchIsAcceptedExactlyWhen` | internal/service/program.go:196-250 | A batch goes through if and only if the coordinator asks in time, all of it fits, and everybody in it is a known researcher, new and listed once |
| `EnrolmentAnswers.CreateAnswers` | internal/service/program.go:45-66 | When a program is created, and that it is a draft with its coordinator as the one new member |
| `EnrolmentAnswers.OpenIsAcceptedExactlyWhen` | internal/domain/program/program.go:74-79 | A program is opened from draft, before its start |
| `EnrolmentAnswers.StartIsAcceptedExactlyWhen` | internal/service/program.go:75-86 | A program is started with two active members, inside its window |
| `EnrolmentAnswers.OnlyTheCoordinatorLoads` | internal/service/program.go:88-105 | Only its coordinator gets hold of a program to change it |
| `EnrolmentAnswers.TransitionWritesItsRow` | internal/storage/sqlite/program_reading.go:44-52 | In every run a transition takes effect if and only if its program is unchanged, and writes that row alone |
| `EnrolmentAnswers.TrimmedShape` | internal/httpapi/api.go:149 | Trimming takes white space off both ends and nothing else |
| `EnrolmentStore.Program.Transition` | internal/domain/program/program.go:62-72 | The loop over allowed states is membership, and only then state and version change |
| `EnrolmentStore.Program.OpenEnrollment` | internal/domain/program/program.go:74-79 | From draft only, before the start |
| `EnrolmentStore.Program.Start` | internal/domain/program/program.go:81-87 | From enrolling only, within the program window |
| `EnrolmentStore.Store.CountActiveMembers` | internal/storage/sqlite/program_reading.go:75-79 | Counts exactly the active members of the program |
| `EnrolmentStore.Store.FindMember` | internal/storage/sqlite/program_reading.go:60-73 | Finds a member row of the user, or there is none |
| `EnrolmentStore.Store.InsertProgramMember` | internal/storage/sqlite/program_reading.go:54-58 | At most one row per user and program |
| `EnrolmentStore.Store.UpdateProgram` | internal/storage/sqlite/program_reading.go:44-52 | Replaces the row exactly at the expected version, else a conflict without change |
| `EnrolmentStore.Store.CreateProgram` | internal/service/program.go:27-67 | Caller, edition and program are refused in that order; else program and coordinator's membership together, or nothing |
| `EnrolmentStore.Store.StartProgram` | internal/service/program.go:75-118 | Refuses the caller first; then does what `Started` and its guarded write say, with others before the count and before the write |
| `EnrolmentStore.Store.TryJoin` | internal/service/program.go:136-177 | The transaction of a join answers and writes as `JoinTx` says |
| `EnrolmentStore.Store.Join` | internal/service/program.go:120-188 | Refuses the caller first; after a conflict the existing member, read outside the transaction, is the answer if there is one |
| `EnrolmentStore.Store.AddMembersAtomically` | internal/service/program.go:196-250 | The loop adds all users or rolls all of them back, with the first fault |
| `Auth.CommitMeetsSeenOrExpired` | internal/storage/sqlite/identity_catalog.go:106-113 | A guarded session write met the row its call had read, or that very row marked expired in place |
| `Auth.TouchRevivesAnExpiredSession` | internal/domain/identity/session.go:61-80 | That exception is real: a run in which a late touch makes a row active that had been marked expired |
| `Auth.RevokedIsAbsorbing` | internal/domain/identity/session.go:82-94 | A revoked row never changes again |
| `Auth.NoGrantAfterRevocation` | internal/service/auth.go:167-226 | No authentication that reads the session after its revocation succeeds |
| `Auth.NoGrantAfterDeactivation` | internal/service/auth.go:167-254 | No authentication that reads the user after deactivation succeeds, for any session of that user |
| `Auth.NoGrantAfterExpiry` | internal/service/auth.go:167-202 | No authentication that reads the clock after the session's end succeeds, even if the row was revived |
| `Auth.RevocationTakesEffect` | internal/service/auth.go:204-254 | A committed logout revokes its session; a committed deactivation leaves the user and all of its sessions inactive |
| `AuthAnswers.UnendedSessionsWork` | internal/service/auth.go:167-254 | In every run a live session that neither its own logout nor its own user's deactivation has hit still authenticates before its end, whatever else was committed |
| `AuthAnswers.AuthenticateNowGrantsExactlyWhen` | internal/service/auth.go:167-202 | An undisturbed authentication succeeds if and only if the session is active, unexpired and its user active, and asks for a touch if and only if the interval has passed |
| `AuthAnswers.DeactivationSparesTheOthers` | internal/storage/sqlite/identity_catalog.go:115-123 | A committed deactivation revokes exactly the active sessions of its user; every other session and user is as it was |
| `AuthAnswers.SessionWrites` | internal/storage/sqlite/identity_catalog.go:76-113 | Each other write replaces its own session alone, at the version it read |
| `AuthAnswers.LoginIsAsAsked` | internal/service/auth.go:120-157 | A login makes a session of the length asked for, for an active user |
| `AuthAnswers.LoginMakesALiveSession` | internal/service/auth.go:145-153 | A committed login of an active user puts a usable session in place |
| `AuthAnswers.LogoutIsAsAsked` | internal/service/auth.go:204-219 | Only the session's own user logs it out |
| `AuthAnswers.ClockReadingAnswers` | internal/domain/identity/session.go:61-70 | What a clock reading makes of the session in hand |
| `AuthStore.Session.Validate` | internal/domain/identity/session.go:61-70 | May fail and still mark the copy expired, without a new version |
| `AuthStore.Session.Touch` | internal/domain/identity/session.go:72-80 | A new last-seen time and version exactly when the interval has passed |
| `AuthStore.Session.Revoke` | internal/domain/identity/session.go:82-94 | Revoked again is a success without change; expired is a conflict |
| `AuthStore.Store.UpdateSessionRow` | internal/storage/sqlite/identity_catalog.go:106-113 | Replaces the row exactly at the expected version, else a conflict without change |
| `AuthStore.Store.RevokeSessionsForUser` | internal/storage/sqlite/identity_catalog.go:115-123 | Row by row, active sessions of the user are revoked under a new version and all others are as they were; counts the former |
| `AuthStore.Store.Login` | internal/service/auth.go:120-157 | Only an active user whose password matches gets a session, with a fresh id |
| `AuthStore.Store.Authenticate` | internal/service/auth.go:167-202 | Succeeds exactly when the row passes at the clock reading and the user is active when read; a lost touch does not matter |
| `AuthStore.Store.Logout` | internal/service/auth.go:204-226 | Only the session's own user, under the version read |
| `AuthStore.Store.DeactivateUser` | internal/service/auth.go:228-254 | User and sessions together under the user's version, or nothing |

## Left out

- HTTP routing, JSON, middleware, logging, configuration and the ticker loop.
- bcrypt, SHA-256, UUIDs and random tokens: identifiers are opaque and chosen by the event, a session's identifier stands for its token.
- SQLite itself: a transaction body is atomic or has no effect, one UPDATE is atomic, UNIQUE constraints hold; nothing relies on foreign keys.
- Text comparison inside the protocols: they compare instants, which is what the code does when window bounds, leases and clock readings print equally many fraction digits; `TextTime` says exactly when that is the same.
- Calendars and time zones: instants are integers.
- String validation (intentions, rationales, reasons, bodies, channels, quotations), names, and columns that no branch reads (creation and update times, hashes of snapshots, error texts).
- Audit rows and outbox payloads that services write along with their rows; the outbox model has its own inserts.
- ReadingStore.Store.FindAssignmentConflicts: compares window bounds as instants and orders ids as numbers; `TextTime` says when text agrees.
- ReadingStore.Store.ListExpiredAssignments: the same for window ends, leases and the clock reading.
- EnrolmentStore.Store.CreateProgram: leaves out names, time zones and the unique pair of name and start.
- Context cancellation during the sweep.
- More than one tenant in reviews, enrolment, authentication, archive and outbox; reading carries the tenant in its rows.
- User roles, and the program, member and edition rows that reading calls look at without checking them again, are arbitrary inputs of the events.
- A claim's pages are in the reading model and its review state in the review model; the two are not joined.
- Seminar agendas, the final claims query and the review queue listing.
- Methods no service calls: completing or withdrawing members, accepting or reopening reading sessions, cancelling programs, renaming works.
- In the archive protocol, the program row of the closing transaction, which is in `ArchiveStore`; without it more closings could commit, and none does.
- White space other than ASCII in trimmed keys.
- Database errors other than the modelled faults.
- The readiness that an archive request needs: the model accepts requests at any time, so its results hold for more runs.
- Dispatch of outbox events by topic: the outcome of a dispatch is an input of the worker's turn.
- ReadingStore.Store.ExpireAssignments: assumes that the others only advance the assignments, which `ReadingSafety.RunKeeps` proves of every operation.
- ReadingStore.Store.ExpireListed: assumes the same.
- ReadingStore.Store.ExpireNext: assumes the same.
- ReadingStore.Store.ExpireOne: assumes the same.
- ArchiveStore.Store.CompleteJob: leaves out the unique hash of snapshots, since hashes are taken to be injective.
- EnrolmentStore.Store.Join: assumes one member row per user and program, which `Enrolment.OneRowPerMember` proves of every run.
- EnrolmentStore.Store.TryJoin: assumes the same.
