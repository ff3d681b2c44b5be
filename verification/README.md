# Verified model of the service core

This project models the parts of a small CRUD service in which concurrency, time or encoding make
mistakes likely, and proves what they are for. `dafny verify dfyconfig.toml` checks everything.

- **Durable idempotent mutations** (`Idempotency*.dfy`). Attempts that share an `Idempotency-Key` pin
  a connection, take a MySQL advisory lock, find, reclaim or insert a claim, run the business write,
  store the response, check the deadline, commit and unlock. `Idempotency` is a transition system of
  attempts and server sessions over a committed table, a lock table, a clock and a commit log. GET_LOCK,
  COMMIT and RELEASE_LOCK are split into sending, execution and receipt, so every acknowledgement can be
  lost, and sessions die between any two steps. `IdempotencyInvariant` and `IdempotencySteps` hold the
  inductive invariant, `IdempotencyTheorems`, `IdempotencyTiming` and `IdempotencyAbandonment` what it
  means for every run, `IdempotencyDatabase` the server's part step by step,
  `IdempotencyExecution` the objects that change their fields in place, and `IdempotencyExample` a run
  that commits.
- **Canonical fingerprints** (`CanonicalEncoding`, `PrefixCodes`, `Fingerprints`, `JsonText`). The printer of
  the text that is hashed, its injectivity up to numeric equality and member order, and what the text
  denotes as JSON.
- **Rolling-window limiter** (`RateLimitSpec`, `RateLimitStore`, `RateLimitSteps`, `RateLimiter`). Rings of timestamps,
  updated in place inside an ordered dictionary, proved to decide as a filter over the log of all
  admissions does; the quota and Retry-After are proved of that filter.
- **Connection pool gate** (`DatabasePool`, `DatabasePoolRuns`). Slot hand-off, cancellation, timeout and
  close, with code between awaits as one event.
- **Blank-line pass of the formatter** (`Formatter`, `FormatterSpacing`). Directives, insertion points and
  descending insertion over line arrays.
- **Request deadline owner** (`RequestDeadline`, `RequestDeadlineRuns`). The response channel raced by
  application, reader, body timers and total deadline, and the abandonment that guards commits.
- **Smaller cores**: exact prices (`Price`), optimistic versions (`ItemVersions`), service lifecycle
  (`Lifecycle`) and stable pagination (`Pagination`).

Objects whose methods change fields are classes; each method is proved equal to a function of the old
fields, and the results about runs are proved of these functions.

In the table each part lists its results first; rows that begin with "Supporting" name the methods that
tie objects to these functions and the steps that lead to the results.

The code and its documentation differ in one point, in which the model follows the code:
`docs/architecture.md:319-323` says that an HTTP timeout does not cancel the task of a mutation, but when
the task's own body read times out, `app/common/middleware/request_timeout.py:138-150` raises
CancelledError in it, and the drain at shutdown (`app/common/handlers/request_work.py:41-56`) cancels it too.
`RequestDeadlineRuns.OwnedWorkCancelledExactly` says exactly when such a task is cancelled.

## Model

| member | source | states |
|---|---|---|
| IdempotencyTheorems.EffectsCommitWithTheirClaim | app/common/services/idempotency_service.py:49-178 | In every interleaving a commit carries a handler's work if and only if it carries exactly one claim, of the same scope, completed, with its response and an expiry one retention period after the recorded completion |
| IdempotencyTiming.EffectsAreSpacedOnTheClock | app/common/services/idempotency_service.py:116-150 | If an attempt completes its claim when the database clock reads T and that work commits, every later commit of work for the scope, in every continuation, is at T plus a day or later |
| IdempotencyTiming.CompletionDecides | app/database/repositories/idempotency_repo.py:44-67 | complete accepts exactly the successes within the configured bound that are bodyless or JSON as their status asks, and then stores status, body, the reading of the clock and an expiry a day later |
| IdempotencyTiming.CommitsAsCompleted | app/common/handlers/application_route.py:262-273 | What a transaction commits is what its attempt completed, at the clock reading of the completion |
| IdempotencyTiming.ErrorResponsesRollBack | app/common/handlers/application_route.py:262-266 | A response of 400 or more is rolled back: nothing is left to commit, and the attempt has not failed |
| IdempotencyTheorems.NoEffectWhileUnexpired | app/common/handlers/application_route.py:224-277 | No step commits work for a scope that has an unexpired committed claim; what it commits is the work together with the new claim |
| IdempotencyTheorems.TableIsTheNewestClaims | app/database/repositories/idempotency_repo.py:35-84 | The committed table holds the newest claim of each scope, always completed with a response; reclaiming and purging lose only expired ones |
| IdempotencyTheorems.UnexpiredClaimsAreImmutable | app/common/services/idempotency_service.py:92-114 | Until it expires a stored claim never changes: replays, retries and purges move neither its bytes nor its expiry |
| IdempotencyTheorems.AnswersAreCommittedResponses | app/common/services/idempotency_service.py:107-150 | Every success answer is 2xx and is, in status and bytes, the response that the newest commit of its scope stored, for the same fingerprint |
| IdempotencyTheorems.AnswersAgreeWithinALifetime | app/common/services/idempotency_service.py:92-114 | Answers read while one stored result was current agree in fingerprint, status and bytes |
| IdempotencyTheorems.ClaimDecides | app/common/services/idempotency_service.py:92-133 | What begin makes of a stored claim: go on exactly if there is none, reclaim exactly if it has expired, conflict exactly if it is unexpired with another fingerprint, replay its bytes exactly if it is unexpired with the same; nothing is written before that |
| IdempotencyTheorems.GuardedErrorsNeverOccur | app/common/services/idempotency_service.py:97-114 | No run reaches the errors for a processing claim, a missing response, a bad stored response, a colliding claim or a claim lost before completion |
| IdempotencyTheorems.OnlyTheLockHolderCommits | app/common/services/idempotency_service.py:152-178 | Only the session that holds a scope's advisory lock has rows to commit for it or a COMMIT under way, so a granted GET_LOCK excludes every late COMMIT |
| IdempotencyTheorems.PooledConnectionsAreClean | app/common/services/idempotency_service.py:214-230 | A connection that returned to the pool holds no lock, no uncommitted write and no statement on its way |
| IdempotencyAbandonment.AbandonedNeverCommits | app/common/handlers/application_route.py:250-271 | An attempt that is abandoned before its last activity check never begins to commit, in any continuation of the run |
| IdempotencySteps.StepKeeps | app/common/handlers/application_route.py:224-277 | Every step of attempts, server sessions, clock and purges keeps the inductive invariant of the protocol |
| IdempotencyTheorems.EffectsAreSpaced | app/common/services/idempotency_service.py:92-135 | Supporting: two commits of work for one scope are apart by at least the retention period of what the first recorded |
| IdempotencyTheorems.CommitReplacesNothing | app/common/services/idempotency_service.py:116-133 | Supporting: whatever a session could commit is complete, and none of its rows would replace an unexpired claim |
| IdempotencyExample.FirstAttemptCommits | app/common/services/idempotency_service.py:76-178 | Supporting: for every scope and fingerprint some run commits one effect with its claim and delivers two equal answers, the second a replay without an effect, so the guarantees are not empty |
| IdempotencyTiming.AnswerLeaves | app/common/handlers/application_route.py:273-277 | Supporting: an attempt that leaves without an exception answers with its response unless that is an error; others answer nothing |
| IdempotencyTiming.HandlerReturns | app/common/handlers/application_route.py:251-260 | Supporting: a handler that returns leaves its response to be completed, one that raises makes the attempt fail; either adds only business work |
| IdempotencyDatabase.LockGranted | app/common/services/idempotency_service.py:76-89 | Supporting: gET_LOCK takes a free lock or one the session has, fails on another session's and touches no other |
| IdempotencyDatabase.LockDropped | app/common/services/idempotency_service.py:163-169 | Supporting: rELEASE_LOCK frees the session's own lock, says so, and never frees another's |
| IdempotencyDatabase.CommitApplied | app/common/handlers/application_route.py:250-273 | Supporting: cOMMIT makes all of the session's rows and no others the committed ones; a failed one changes nothing |
| IdempotencyDatabase.DeathRollsBack | app/common/services/idempotency_service.py:152-161 | Supporting: a session that dies commits nothing and frees exactly its own locks |
| IdempotencyDatabase.PurgeDeletesExpired | app/database/repositories/idempotency_repo.py:69-84 | Supporting: a purge deletes only completed claims whose expiry has come |
| IdempotencyExecution.ValidateResponse | app/common/services/idempotency_service.py:181-195 | Supporting: a success within the limit, without body for 204 and 205 and strict JSON otherwise |
| IdempotencyExecution.InsertStepsWrite | app/common/services/idempotency_service.py:116-131 | Supporting: a new claim is processing, without response or expiry, and the only change |
| IdempotencyExecution.ClaimRows.Find | app/database/repositories/idempotency_repo.py:14-28 | Supporting: finds the row the transaction sees and whether it is unexpired; NULL reads as expired |
| IdempotencyExecution.ClaimRows.Claim | app/database/repositories/idempotency_repo.py:30-33 | Supporting: inserts the claim unless a visible row has the same key |
| IdempotencyExecution.ClaimRows.DeleteExpired | app/database/repositories/idempotency_repo.py:35-42 | Supporting: deletes the row exactly if it is completed and its expiry has come |
| IdempotencyExecution.ClaimRows.Complete | app/database/repositories/idempotency_repo.py:44-67 | Supporting: completes exactly a processing row: status, body, completion time and expiry |
| IdempotencyExecution.Execution.Lock | app/common/services/idempotency_service.py:76-89 | Supporting: GET_LOCK's answer decides: uncertain unless 0 or 1, busy on 0, locked on 1 |
| IdempotencyExecution.Execution.ReplayOrClaim | app/common/services/idempotency_service.py:92-135 | Supporting: fields, rows and outcome are those of the protocol's find, reclaim and claim steps taken in order |
| IdempotencyExecution.Execution.ReadClaim | app/common/services/idempotency_service.py:94-117 | Supporting: the verdict on the record that is found is that of the protocol |
| IdempotencyExecution.Execution.Begin | app/common/services/idempotency_service.py:49-135 | Supporting: begin as a whole, with its three activity checks, refines the protocol's steps from its first check to the claim |
| IdempotencyExecution.Execution.Complete | app/common/services/idempotency_service.py:137-150 | Supporting: stores the response of a claim exactly if the request is active, the response storable and the claim processing; does nothing for a replay |
| IdempotencyExecution.Execution.Release | app/common/services/idempotency_service.py:152-178 | Supporting: release leaves the connection invalidated, and raises, exactly as the protocol's release steps say |
| Fingerprints.EncodePrefixInjective | app/common/models/idempotency_model.py:141-186 | Equal texts, each continued by nothing or by a delimiter, come from values equal up to numeric equality and member order, and have equal continuations |
| Fingerprints.EncodeIffSame | app/common/models/idempotency_model.py:141-186 | Two values have one text if and only if they are the same data |
| Fingerprints.FingerprintIffSame | app/common/models/idempotency_model.py:141-193 | The same for the text to hash, where a number that is not finite is refused |
| Fingerprints.PermutedMembers | app/common/models/idempotency_model.py:168-181 | Rearranging an object's members leaves its text as it is |
| Fingerprints.NormalIffEqual | app/common/models/idempotency_model.py:142-166 | Two decimals have one sign, significand and exponent if and only if they are the same number |
| Fingerprints.OmittedDiffersFromNull | app/common/models/idempotency_model.py:100-107 | A request that gives a field as null has another text than one that leaves it out |
| Fingerprints.DefaultReadsAsGiven | app/common/models/idempotency_model.py:100-107 | A default that is not null has the text it would have if the request had given it |
| JsonText.EncodeDenotes | app/common/models/idempotency_model.py:141-186 | Read by the grammar of RFC 8259, the text of a value denotes that value |
| JsonText.EncodeNumberDenotes | app/common/models/idempotency_model.py:142-166 | The text of a number denotes it, by section 6 of RFC 8259 |
| Fingerprints.CanonIffSame | app/common/models/idempotency_model.py:141-186 | Two values have one canonical form if and only if they are the same data |
| Fingerprints.SortAscends | app/common/models/idempotency_model.py:178-179 | Members come in strictly ascending order of their keys' code points |
| Fingerprints.FieldsIdentified | app/common/models/idempotency_model.py:98-112 | Two requests to one model have one text if and only if each field is left out of both, or of neither and has the same value; left out means not given and null |
| PrefixCodes.EncodeIsPrint | app/common/models/idempotency_model.py:141-186 | The text is the plain printing of the canonical form |
| PrefixCodes.PrintPrefix | app/common/models/idempotency_model.py:141-186 | Printed canonical values are a prefix code |
| PrefixCodes.EscapeRoundTrip | app/common/models/idempotency_model.py:174-186 | A reader that follows section 7 of RFC 8259 gets every string back from its escaped text |
| Fingerprints.NormalValue | app/common/models/idempotency_model.py:148-159 | Supporting: stripping trailing zeros into the exponent keeps the number, and zero has one form |
| PrefixCodes.EscapesShortly | app/common/models/idempotency_model.py:174-186 | Supporting: only what must be escaped is, with two characters where that is possible and lower-case hexadecimal otherwise |
| Fingerprints.SameIsAnEquivalence | app/common/models/idempotency_model.py:141-186 | Supporting: being the same data is reflexive, symmetric and transitive |
| PrefixCodes.NumberIsPrinted | app/common/models/idempotency_model.py:157-166 | Supporting: the digit text without trailing zeros, with its adjusted exponent, prints the normal form |
| PrefixCodes.EscapePrefix | app/common/models/idempotency_model.py:174-186 | Supporting: a closing quote ends an escaped string at one place only |
| RateLimiter.Limiter.Admit | app/config/rate_limiter.py:53-94 | admit makes the decision of the naive limiter over the log of all admissions, records an admission exactly if it grants one, and keeps all of the store's invariants |
| RateLimitSteps.StepKeeps | app/config/rate_limiter.py:53-104 | One call keeps rings, order, counts and log in agreement and decides as the naive limiter does |
| RateLimitStore.SweptClients | app/config/rate_limiter.py:60-69 | After the sweep the tracked clients are exactly those with an admission inside the window |
| RateLimitStore.FirstIsEarliest | app/config/rate_limiter.py:64-67 | The first client of the dictionary is the first to expire |
| RateLimitSpec.QuotaOverAnyRun | app/config/rate_limiter.py:71-92 | In every run any max_requests + 1 admissions of one client span at least the window |
| RateLimitSpec.ClientCapOverAnyRun | app/config/rate_limiter.py:60-71 | In every run, at every later time, no more clients than allowed are live |
| RateLimitSpec.LiveAtMostQuota | app/config/rate_limiter.py:78-81 | In every run no client has more live admissions than its quota |
| RateLimitSpec.RetryAfterExact | app/config/rate_limiter.py:106-112 | For 429 and 503, at every point of every run and with no calls in between, the announced seconds are the least whole number, at least one, after which the client is admitted |
| RateLimitSpec.QuotaRetryExact | app/config/rate_limiter.py:78-81 | A client out of quota is admitted at a later time if and only if its oldest live admission has left the window |
| RateLimitSpec.CapacityRetryExact | app/config/rate_limiter.py:63-67 | A client for which there is no room is admitted at a later time if and only if the first live client has expired |
| RateLimitStore.SweepKeeps | app/config/rate_limiter.py:96-104 | Supporting: dropping an expired first client keeps rings, order, count and log in agreement |
| RateLimitStore.TrimKeeps | app/config/rate_limiter.py:71-76 | Supporting: a trimmed ring is the client's live admissions, and the order by expiry stays |
| RateLimitStore.RecordKeeps | app/config/rate_limiter.py:83-92 | Supporting: recording and moving to the end keeps the order by expiry, the counts and the agreement with the log |
| RateLimitSpec.DecisionsMakeTheLog | app/config/rate_limiter.py:53-94 | Supporting: a limiter that decides as the naive one has, after every sequence of calls, its log |
| RateLimitSpec.PolicyAccepted | app/config/rate_limit_policy.py:7-29 | Supporting: which policies are accepted; every accepted one is usable |
| RateLimitSpec.StatusTells | app/config/rate_limiter.py:63-94 | Supporting: 503 exactly for an unknown client without room, 429 exactly for one with room or known that is out of quota, and admission otherwise |
| RateLimitSpec.AdmitsIffDecided | app/config/rate_limiter.py:63-94 | Supporting: a request is granted if and only if its client is live or there is room, and it has quota left |
| RateLimitSpec.RetrySecondsLeast | app/config/rate_limiter.py:106-112 | Supporting: the announced seconds reach the time, and fewer do not |
| RateLimiter.Limiter.ExpireClients | app/config/rate_limiter.py:96-104 | Supporting: sweeping the front of the dictionary drops exactly what the sweep of the specification drops |
| RateLimiter.Limiter.Trim | app/config/rate_limiter.py:71-76 | Supporting: the ring loses exactly its times at or before the cutoff, and the count of stored requests follows |
| RateLimiter.Limiter.Resolve | app/config/rate_limiter.py:61-69 | Supporting: the client's ring, or a new empty one that shares no slot with another |
| RateLimiter.Limiter.Spend | app/config/rate_limiter.py:78-94 | Supporting: a full ring is refused with the time its oldest entry leaves; otherwise the time is recorded and the client moves to the end |
| RateLimiter.RateLimitState.Expire | app/config/rate_limiter.py:73-76 | Supporting: advancing the head with wrap-around drops exactly the times at or before the cutoff |
| RateLimiter.RateLimitState.Record | app/config/rate_limiter.py:83-86 | Supporting: writing the tail slot with wrap-around appends the time to the ring's contents |
| RateLimiter.RateLimitState.constructor | app/common/store/rate_limit.py:8-17 | Supporting: a new ring is empty |
| DatabasePoolRuns.SlotsAreAccountedFor | app/common/handlers/database_pool.py:26-125 | In every run active is the number of calls past the gate, hand-offs not picked up and leased connections; it stays within 0 and the limit; while anyone waits it is the limit; the queue is bounded |
| DatabasePoolRuns.StepKeeps | app/common/handlers/database_pool.py:26-125 | Every event keeps the account of slots and the order of the queue |
| DatabasePoolRuns.HandedOverInOrderOfArrival | app/common/handlers/database_pool.py:38-61 | In every run slots are handed over in the order of arrival, to each waiter at most once, and never past one still queued |
| DatabasePoolRuns.NewcomersQueue | app/common/handlers/database_pool.py:30-41 | A call that starts while anyone waits does not get a slot at once |
| DatabasePoolRuns.StartAnswered | app/common/handlers/database_pool.py:26-41 | In every reached state a call that starts gets a slot exactly if one is free, waits at the end of the queue exactly if none is and the queue is not full, and is refused otherwise |
| DatabasePoolRuns.GrantedProceeds | app/common/handlers/database_pool.py:92-104 | A waiter that was handed a slot goes on to lease a connection while the gate is open, and to close it otherwise |
| DatabasePoolRuns.InterruptedLeaves | app/common/handlers/database_pool.py:42-50 | An interruption takes a waiter out of the queue, or makes it pass on the slot it was handed |
| DatabasePoolRuns.ServedInTurn | app/common/handlers/database_pool.py:38-61 | A waiter with k live waiters ahead has its slot after k + 1 releases unless it is interrupted or the gate closes; after at most k it still waits, unless a live waiter was interrupted |
| DatabasePoolRuns.ReleaseAdvances | app/common/handlers/database_pool.py:52-61 | A release serves the first live waiter and brings each other one place forward |
| DatabasePoolRuns.ClosedPoolDrains | app/common/handlers/database_pool.py:63-125 | Once closed, nothing new is leased or handed over and active falls by one with each release, so it reaches zero when the holders finish |
| DatabasePoolRuns.ClosedPoolCanDrain | app/common/handlers/database_pool.py:63-125 | From every closed state that a run reaches, steps of calls and connections in use alone lead to a pool with no slot in use, no lease and no holder |
| DatabasePoolRuns.EnoughReleasesDrain | app/common/handlers/database_pool.py:63-125 | Every run from a closed state whose slots are accounted for, with as many releases as slots in use ends in such a pool; no run has more |
| DatabasePoolRuns.FreeKeeps | app/common/handlers/database_pool.py:52-61 | Supporting: a slot being released goes to exactly one waiter or back to the gate |
| DatabasePool.Admission.Acquire | app/common/handlers/database_pool.py:26-41 | Supporting: closed, a free slot, a full queue or a new last waiter, each exactly when the gate's fields say so, with all that changes |
| DatabasePool.Admission.Release | app/common/handlers/database_pool.py:52-61 | Supporting: hands the slot to the first waiter that is not done, dropping those before it, or frees it if there is none |
| DatabasePool.Admission.Abort | app/common/handlers/database_pool.py:43-50 | Supporting: an aborted waiter leaves the queue, or passes on a slot it had been handed |
| DatabasePool.Admission.Close | app/common/handlers/database_pool.py:63-70 | Supporting: closes the gate, empties the queue and fails exactly the queued waiters that are not done |
| DatabasePool.BoundedPool.Lease | app/common/handlers/database_pool.py:95-104 | Supporting: a connection is leased unless the gate closed meanwhile |
| DatabasePool.BoundedPool.ReturnConn | app/common/handlers/database_pool.py:116-125 | Supporting: returning a leased record frees one slot; returning it again frees none |
| Formatter.ProtectedLines | scripts/format_code.py:43-65 | Exactly the lines with a comment spelled "fmt: skip", and those from one spelled "fmt: off" to the first spelled "fmt: on" after it or to the end, whatever hashes and white space surround the words |
| Formatter.DirectiveSpelled | scripts/format_code.py:52-63 | A comment is a directive exactly if it consists of hashes, white space, the words and white space |
| FormatterSpacing.Point | scripts/format_code.py:139-145 | The insertion point lies between the statements, directly above the comments attached to the second |
| FormatterSpacing.Place | scripts/format_code.py:94-145 | A pair gets an insertion point exactly if it needs one |
| FormatterSpacing.CollectPoints | scripts/format_code.py:84-145 | The set of insertion points of all pairs |
| FormatterSpacing.InsertDescending | scripts/format_code.py:147-148 | Inserting in place, largest index first, is inserting at all points at once |
| FormatterSpacing.SpacedSource | scripts/format_code.py:77-157 | The line pass as a whole |
| FormatterSpacing.EraseRestores | scripts/format_code.py:147-157 | Only blank lines are put in, and erasing them gives back the source |
| FormatterSpacing.InsertedBetween | scripts/format_code.py:119-148 | Every inserted line lies between two statements that need it, above the attached comments, and next to no protected line |
| FormatterSpacing.PassSeparates | scripts/format_code.py:119-148 | Every pair that the rules ask to separate and no directive protects is separated afterwards |
| FormatterSpacing.PassIsStable | scripts/format_code.py:184-193 | A second pass over the output, with statements and directives at their new lines, changes nothing |
| FormatterSpacing.SecondPassInsertsNothing | scripts/format_code.py:84-148 | On the output no pair needs a blank line |
| Formatter.BlankExactly | scripts/format_code.py:136-137 | Supporting: a line is blank exactly if stripping leaves nothing |
| Formatter.AsciiSpace | scripts/format_code.py:136-142 | Supporting: which ASCII characters are white space |
| Formatter.CommentLineExactly | scripts/format_code.py:142-143 | Supporting: a comment line has only white space before its first hash |
| FormatterSpacing.RequiredByKinds | scripts/format_code.py:119-126 | Supporting: a blank line is asked for after every block, after an assignment unless another follows, and before a try, a return or a raise |
| FormatterSpacing.WeaveAt | scripts/format_code.py:147-148 | Supporting: where each old line and each inserted line is afterwards |
| FormatterSpacing.ProtectedMoves | scripts/format_code.py:43-65 | Supporting: directives protect the same lines under their new numbers |
| RequestDeadlineRuns.OneResponse | app/common/middleware/request_timeout.py:157-250 | In every run at most one response starts, nothing follows a final body, and application and 408 messages never mix |
| RequestDeadlineRuns.TimeoutOnlyBeforeStart | app/common/middleware/request_timeout.py:224-246 | A 408 goes out only for an abandoned request whose application had started nothing, and the application then sends nothing more |
| RequestDeadlineRuns.LateRequestAnswered | app/common/middleware/request_timeout.py:224-246 | In every run a request that is too late and whose application has started nothing gets a 408; if nothing abandoned it before, the total deadline does |
| RequestDeadlineRuns.TimeoutResponseSent | app/common/middleware/request_timeout.py:239-246 | The 408 is a complete response |
| RequestDeadlineRuns.UnownedWorkCancelled | app/common/middleware/request_timeout.py:218-263 | Work that owns no mutation and is not done is cancelled when its request is over before its response |
| RequestDeadlineRuns.AbandonmentIsPermanent | app/common/handlers/request_activity.py:24-35 | In every continuation the first reason for abandoning stays |
| RequestDeadlineRuns.LateNeverCommits | app/common/handlers/application_route.py:250-271 | A mutation whose request is abandoned, or whose deadline has come, before its last check never begins to commit, in any continuation |
| RequestDeadlineRuns.OwnedWorkCancelledExactly | app/common/middleware/request_timeout.py:120-263 | In every run work that owns a mutation has been cancelled if and only if a body read of its own timed out, the owner was cancelled while it awaited the work, or the drain at shutdown ran out of time |
| RequestDeadlineRuns.CancelledWorkNeverOwns | app/common/middleware/request_timeout.py:218-263 | Work that the owner's decision or clean-up cancels owns no mutation and never comes to own one, in any continuation |
| RequestDeadlineRuns.PassedOnAfterTheResponse | app/common/middleware/request_timeout.py:209-251 | The owner's own cancellation reaches unfinished work only once the response is complete |
| RequestDeadlineRuns.StalledBodyCancelsOwnedWork | app/common/middleware/request_timeout.py:135-150 | A body that stalls does raise CancelledError in work that owns a mutation |
| RequestDeadlineRuns.StepKeeps | app/common/middleware/request_timeout.py:95-268 | Every event keeps the agreement of owner, application, wire and mutation |
| RequestDeadlineRuns.OtherDecisions | app/common/middleware/request_timeout.py:215-251 | Supporting: a complete response is left to finish, a lost or started one is aborted with nothing more sent, an error of the reader ends the request |
| RequestDeadlineRuns.StalledBodyAbandons | app/common/middleware/request_timeout.py:138-146 | Supporting: a stalled body abandons the request with the reason of its timer |
| RequestDeadlineRuns.MessagesGoOut | app/common/middleware/request_timeout.py:157-165 | Supporting: a message goes out exactly while the channel is open, connected and incomplete |
| RequestDeadlineRuns.WaitEnds | app/common/middleware/request_timeout.py:208-213 | Supporting: the total deadline can pass whenever the work goes on and the reader reads |
| RequestDeadlineRuns.ActiveMutationCommits | app/common/handlers/application_route.py:216-273 | Supporting: a mutation of an active request in time passes its checks and may commit |
| RequestDeadline.RequestActivity.Abandon | app/common/handlers/request_activity.py:24-26 | Supporting: the first reason for abandoning stays |
| RequestDeadline.RequestActivity.AssertActive | app/common/handlers/request_activity.py:28-35 | Supporting: raises for an abandoned request with its reason, or at the deadline, which then is the reason |
| RequestDeadline.RequestActivity.TakeOver | app/common/handlers/application_route.py:216-219 | Supporting: a mutation owns a request only if it was active |
| RequestDeadline.RequestOwner.OnDisconnect | app/common/middleware/request_timeout.py:102-109 | Supporting: a disconnect counts unless the response is complete |
| RequestDeadline.RequestOwner.MarkDisconnected | app/common/middleware/request_timeout.py:114-118 | Supporting: a failed read or send marks the request as disconnected and abandons it |
| RequestDeadline.RequestOwner.AskForBody | app/common/middleware/request_timeout.py:120-137 | Supporting: a body read is answered at once after closing or disconnecting, waits for the end after a complete body, and otherwise waits for a message |
| RequestDeadline.RequestOwner.ReceiveBody | app/common/middleware/request_timeout.py:135-155 | Supporting: a body timeout records its detail, abandons the request and raises CancelledError in the reader; a message that arrives says whether the body is complete |
| RequestDeadline.RequestOwner.SendResponse | app/common/middleware/request_timeout.py:157-165 | Supporting: a message goes out unless the owner is closed, disconnected or complete; a start that goes out is remembered |
| RequestDeadline.RequestOwner.OnSent | app/common/middleware/request_timeout.py:176-179 | Supporting: the response is complete once a final body has gone out |
| RequestDeadline.RequestOwner.Decide | app/common/middleware/request_timeout.py:215-251 | Supporting: each decision exactly when the owner's fields say so, the abandonment with its reason, and whether the work is cancelled |
| RequestDeadline.RequestOwner.Finish | app/common/middleware/request_timeout.py:252-263 | Supporting: the final clean-up abandons and cancels unfinished work, except work that owns a mutation |
| Price.AcceptsWholeCents | app/common/models/price_model.py:31-46 | A number is accepted if and only if it is a whole number of cents from 1 to 9,999,999,999, and comes back as that number at two places |
| Price.QuantizeFits | app/common/models/price_model.py:36-39 | A price in range rounds to at most ten digits, so the ten-digit context never overflows |
| Price.ValidateIdempotent | app/common/models/price_model.py:15-46 | Validating an accepted price again gives the same price |
| Price.SamePriceSameText | app/common/models/price_model.py:36-46 | Two accepted spellings have one fingerprint text if and only if they are the same price, and are then one value |
| Price.RefusedExactly | app/common/models/price_model.py:15-44 | Each refusal for exactly its inputs: no number or string, text that is not plain, not a number in range, and a fraction of a cent |
| Price.PlainExactly | app/common/models/price_model.py:12-23 | Plain text is digits, or digits, a point and one or two digits |
| Price.TextIsPrecise | app/common/models/price_model.py:16-23 | A plain decimal string is never refused for its precision |
| Price.TenthsAccepted | app/common/models/price_model.py:16-23 | With one digit behind the point the price is in tenths |
| Price.UnitsAccepted | app/common/models/price_model.py:16-23 | Without a point the price is in whole units |
| Price.SpelledAccepted | app/common/models/price_model.py:16-23 | Every price is accepted in its usual spelling, as itself |
| Price.ParsedValue | app/common/models/price_model.py:23-23 | Supporting: plain text stands for the number it spells |
| ItemVersions.CommittedMutationsInSequence | app/database/repositories/item_repo.py:160-207 | In every run the item is what its committed mutations make of it one after the other; its version is one more than their number and never passes its maximum |
| ItemVersions.LastCommittedWins | app/database/repositories/item_repo.py:160-187 | In every run the stored item holds, field by field, what the last committed mutation that set the field set, or what it was created with |
| ItemVersions.ExpectedMutationCommits | app/api/v1/items/services/item_service.py:51-103 | On a free row a mutation that expects the current version can commit, with the whole new row |
| ItemVersions.ExpectedVersionsDiffer | app/api/v1/items/services/item_service.py:92-103 | No two committed mutations expected the same version, and none follows a delete |
| ItemVersions.OtherMutationRefused | app/api/v1/items/services/item_service.py:92-103 | Supporting: any other mutation is refused under the lock and cannot commit |
| ItemVersions.LeavingUndoes | app/database/repositories/item_repo.py:147-158 | Supporting: a transaction that leaves without a commit changes nothing and frees the row |
| ItemVersions.ItemSession.Mutate | app/api/v1/items/services/item_service.py:51-103 | Supporting: a mutation succeeds exactly if the item exists at the expected version and, unless it is a delete, below the maximum; otherwise the row stays |
| ItemVersions.ItemSession.Change | app/database/repositories/item_repo.py:160-207 | Supporting: the conditional statement changes the row it matches, or none |
| Lifecycle.LastInFirstOut | app/common/handlers/lifecycle_handler.py:173-240 | In every sequence of calls starts and stops are last in, first out, and the handler lists exactly the running services |
| Lifecycle.StartedOnceStoppedOnce | app/common/handlers/lifecycle_handler.py:173-240 | Every successful start is undone by exactly one stop, except of what still runs; a failed start never is |
| Lifecycle.ReadyMeansRunning | app/common/handlers/lifecycle_handler.py:73-78 | A ready handler runs exactly the services registered at its startup |
| Lifecycle.RegistersFirstOfEachName | app/common/handlers/lifecycle_handler.py:156-167 | Registering keeps what is there and adds, in order, the first offered service of each new name |
| Lifecycle.StartupOutcome | app/common/handlers/lifecycle_handler.py:173-201 | Startup ends ready with everything running if no start raises, and otherwise with nothing running and another startup possible |
| Lifecycle.FailedStartup | app/common/handlers/lifecycle_handler.py:189-199 | A failed startup stopped exactly what it had started and remembers whether a stop raised |
| Lifecycle.ShutdownOutcome | app/common/handlers/lifecycle_handler.py:207-222 | A shutdown ends readiness, stops everything and lets a startup follow; a second one does nothing |
| Lifecycle.ClearDropsNothing | app/common/handlers/lifecycle_handler.py:177-183 | Whenever startup clears its list, nothing is running |
| Lifecycle.LifecycleHandler.Register | app/common/handlers/lifecycle_handler.py:156-167 | Supporting: adds the services whose names are new, in order |
| Lifecycle.LifecycleHandler.Startup | app/common/handlers/lifecycle_handler.py:173-201 | Supporting: starts services in order; at the first exception it stops those that started, last first, and raises |
| Lifecycle.LifecycleHandler.StopStartedServices | app/common/handlers/lifecycle_handler.py:228-240 | Supporting: stops every started service once, last first, whatever raises |
| Lifecycle.LifecycleHandler.Shutdown | app/common/handlers/lifecycle_handler.py:207-222 | Supporting: quiesces, stops everything and allows another startup |
| Lifecycle.LifecycleHandler.Quiesce | app/common/handlers/lifecycle_handler.py:56-68 | Supporting: marks the handler as quiescing and remembers exceptions |
| Pagination.ListingUnique | app/database/repositories/item_repo.py:113-125 | With the tie-break by id the requested order leaves the database no choice |
| Pagination.ListingAnswers | app/database/repositories/item_repo.py:87-138 | Filtering and sorting gives a list that answers the query, for every table |
| Pagination.PagesAreTheListing | app/common/models/pagination.py:59-97 | On a fixed table pages 1 to total_pages, each answered on its own, are together the whole listing, every row once |
| Pagination.ListsInOrder | app/database/repositories/item_repo.py:108-125 | Rows come by the column asked for, rows that agree in it by id, both in the direction asked for |
| Pagination.LeastPages | app/common/models/pagination.py:92-97 | The number of pages is the least that holds all rows, and at least one |
| Pagination.PageFilled | app/common/models/pagination.py:59-97 | A page holds rows if and only if there are any and the page is not past the last |
| Pagination.QueryAccepted | app/common/models/pagination.py:20-62 | Supporting: which page, limit and offset are accepted |
| Pagination.ListsMatches | app/database/repositories/item_repo.py:90-106 | Supporting: listed are exactly the rows that match the search and lie within the price bounds |

## Left out

- The hash is taken to be injective: fingerprints, scopes and client keys are the hashed values themselves, and namespaces, caller scopes, routes and key syntax are parts of a scope.
- The database clock and the limiter's clock are taken to be monotone; a clock that runs backwards is not modelled.
- SQL, InnoDB gap locks, deadlocks and driver reconnects: a statement other than GET_LOCK, COMMIT and RELEASE_LOCK is one step on the session's own writes, and a failure is a lost connection or a rollback.
- A handler is an arbitrary piece of work in the attempt's transaction that returns a response or raises; it does not commit by itself.
- IdempotencyExecution.Execution.Begin: an exception raised by a statement, or a cancellation at an await, is covered by the transition system instead.
- The purge deletes any set of expired claims; the order and the size of its batches are not modelled.
- Whether bytes are strict JSON is a parameter of the idempotency model.
- Fingerprints.EncodeIffSame: floats enter as the exact decimal of their shortest text; the text of a float, UTF-8 and the conversion of dates, UUIDs, enums and secrets to JSON values are not modelled, nor are keys that are not strings and extra fields of request models.
- Binary floating point: the limiter's times and the request deadline are real numbers, and the rounding of the seconds' division is not modelled.
- RateLimiter.Limiter.Admit: calls run one after the other, as under the limiter's lock; the usage counters are not modelled.
- Futures are entries of a table that is never cleaned up, and acquire calls are numbered in the order in which they start.
- What the underlying connection pool does with a connection that arrives after a cancellation is not modelled.
- FormatterSpacing.PassIsStable: the statements of the output are taken to be those of the source at their new lines, which is what the comparison of syntax trees checks; parsing, tokenizing, Black, line endings and the choice of sibling lists are not modelled.
- The application is taken to follow the response protocol (one start, then bodies, one final), and its sends do not overlap; timeouts and cancellations of its own making are not modelled.
- Retention of cancelled work, outcome logging and CORS headers of the request owner are not modelled.
- Overlapping lifecycle calls, and cancellation inside a service's start or stop, which the handler does not aim to cover; readiness checks and loop lag.
- Item listings: text search is a set of matching ids and names are ranks in the column's collation.
- Price.AcceptsWholeCents: a float enters as the decimal of its shortest text, and serialization to a float is not modelled.
- Simple middleware, settings, logging, metrics, migrations, release and image scripts would only add easy members.
