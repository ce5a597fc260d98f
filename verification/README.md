# Odograph: verified model of its state machines, codecs and bounded arithmetic

Odograph records trips, expenses and odometer readings and serves them over HTTP. This project models the
parts of it that are real state machines, streaming codecs or arithmetic with a bound, and proves what they
promise over every run, every input and every way of cutting a stream into pieces. `dafny verify dfyconfig.toml`
checks the whole project.

Code that works step by step is modelled twice: as a method or class with the loops and fields of the source,
and as a function on values that specifies it. The method's `ensures` ties the two together, and the lemmas are
about the function.

## What is modelled

* **Serving admission** (`Admission`, `AdmissionInvariant`, `AdmissionTheorems`, `AdmissionWaiting`,
  `AdmissionOwnership`, `OwnedWork`, `OwnedWorkTheorems`, `CapacityConfig`, `AdmissionConnections`, `AdmissionShortage`,
  `AdmissionService`). Every stretch between two awaits is one step of a state machine: acquiring, a waiter resuming or failing (before or after its
  grant), leaving, shutdown, the clock, and the use of borrows, connections, leases and threads. A run is any sequence
  of such steps.
  `Admission` says when an owner, a lease or a future may go; `OwnedWork` has the awaits that are to ensure it, with a
  place for every `owned_thread` call and for the drains of `operation`, `lease` and `owned_thread`, any of which a
  cancellation may interrupt at any time. It discards, releases and drops without looking, as the code does, and is
  proved to make only the steps that `Admission` allows, so that everything about runs holds for it too.
  `AdmissionService` is the object with its fields updated in place; each of its methods is proved equal to a step.
* **Mail encoding** (`Newlines`, `QuotedPrintable`, `Base64`, `TransferEncoding`, `DotStuffing`, `MailPipeline`).
  The streaming normalizer, the quoted-printable and base64 writers, the choice between encodings and SMTP dot
  stuffing, with decoders written from section 6.7 and 6.8 of RFC 2045 and section 4.5.2 of RFC 5321.
* **Background turns** (`TurnScheduler`, `SchedulerService`) and **account rotation** (`AccountRotation`,
  `AccountService`).
* **The failed-authentication limiter** (`FailureTable`, `FailureTableTheorems`, `FailureLimiterService`) against an
  unbounded log of failures.
* **The PNG validator** (`PngRows`, `PngChunks`), and what it accepts in the terms of the PNG specification
  (`PngImages`).
* **The export search** (`Utf8Codec`, `SearchPattern`, `TextStore`, `SearchRecords`): storing and reading text with an
  incremental decoder, the streaming trim, LIKE escaping, record framing. UTF-8 is that of section 3 of RFC 3629.
* **The expense report** (`ExpenseTotals`, `MileageRates`, `ExpenseReport`).
* **Expense paging** (`Cursor`, `ExpensePaging`).

`Bytes` and `Common` hold what several of them use.

## Results that are not what one might expect

* The bound on database connections holds for the requests granted to operations that are not over
  (`AdmissionConnections.LiveGrantsFit`). A child task that keeps its connection longer is not stopped by the code.
  Then a pool is asked for more than it has exactly when the requests left behind do not fit beside the live ones
  (`AdmissionConnections.GrantsExceedExactlyByThoseLeft`); there is no bound on how many there are
  (`AdmissionConnections.UnnestedGrantsAreUnbounded`), and those beyond the size of the pool wait for it. Where the slots
  use up the pool, as they do by default, operations that end without a connection can run it short exactly when one
  has already ended with a connection (`AdmissionShortage.ShortageNeedsWorkLeftBehind`). None is ever left behind
  exactly when no operation ends while its owner has a connection (`AdmissionConnections.NeverLeftExactlyWhenNested`).
* With accounts still queued in a round, the next wake time is the clock, which is later than deferred work that was
  already due. `AccountRotation.WakesInTimeExactly` says, from what is known before the turn and the job's own result,
  when the wake time is in time, and `AccountRotation.OverdueWorkWaitsForTheClock` is a run from the start where it is
  not. A turn that raises out of `run_turn` leaves the wake time as it was.
* Dot stuffing is transparent exactly when no dot stands behind an LF without a CR
  (`DotStuffing.TransparentExactlyWithoutBareDots`, `DotStuffing.BareDotIsDoubled`). What `write_mime` writes never
  contains one.
* `trimmed` measures in UTF-8 and drops the encoding of its reference. Its only caller passes the search text, which is
  stored in UTF-8, and there the trimmed range reads back the stripped text (`TextStore.TrimmedRangeIsRead`). References
  of other keys may have another encoding, for which it would be right exactly when every character has the size it
  has in UTF-8 (`SearchPattern.RangeHoldsExactlyInUtf8Sizes`); an é in ISO 8859-1 is an input for which it would not
  (`SearchPattern.OneOctetIsTooShort`).
* The quoted-printable lines of this code may have 78 characters, where section 6.7 of RFC 2045 allows 76.
* The row count of the PNG validator includes one filter byte for each row of an Adam7 pass of width zero. The model
  follows the code.

## Model

| member | source | states |
|---|---|---|
| AdmissionInvariant.ExpiredTicketsAreAPrefix | app/capacity.py:169-173 | in a queue in order of deadline, the tickets that the first loop of `_promote` expires are exactly a prefix, and the rest stays as it is |
| AdmissionInvariant.PromoteLaneClosedForm | app/capacity.py:166-182 | both loops of `_promote` together: expired tickets are refused, the oldest live ones get exactly the free slots, nobody else is touched |
| AdmissionInvariant.PromoteKeepsCore | app/capacity.py:166-182 | promotion restores the rule that only a full lane has a queue, whatever ticket or owner had just left |
| AdmissionInvariant.VacateKeepsInv | app/capacity.py:230-239 | taking an owner out of its lane, queued or active, and promoting keeps every invariant, including that of the drained event |
| AdmissionInvariant.AcquireKeepsInv | app/capacity.py:184-228 | an acquisition keeps the bounds, the order of deadlines, account exclusion and the agreement of futures with queues |
| AdmissionInvariant.RunKeepsInv | app/capacity.py:166-347 | every run of steps of any tasks keeps the invariant |
| AdmissionTheorems.NoLostSlotOrWakeup | app/capacity.py:166-182 | in every reachable state each lane is within its slot and queue limits, a non-empty queue implies a full lane, and `_drained` is set exactly when everything is empty |
| AdmissionTheorems.AccountsExclude | app/capacity.py:199-216 | in every reachable state no two owners of one account are active or queued in one lane, with navigation and foreground counting as one |
| AdmissionTheorems.AcquireOutcome | app/capacity.py:184-228 | exactly when an acquisition is admitted, waits or is refused: expired tickets never block an account, and a lane that is not full always admits |
| AdmissionTheorems.IllFormedIsRefused | app/capacity.py:184-198 | a call changes nothing and is refused as busy, or as an error of its caller while the manager is open, if and only if the manager is closed, the lane unknown, another operation around it, or its principal missing, unexpected or disabled |
| AdmissionTheorems.ResolvedOnce | app/capacity.py:174-182 | over any run a ticket that was granted, refused or withdrawn is never resolved otherwise |
| AdmissionTheorems.NoBarging | app/capacity.py:176-228 | no step admits an owner while an earlier unexpired ticket of its lane stays queued |
| AdmissionTheorems.NothingIsAdmittedAfterShutdown | app/capacity.py:339-347 | once shutdown has begun, along every run queues stay empty, active sets only shrink and acquisitions are refused |
| AdmissionTheorems.ShutdownReturnsEmpty | app/capacity.py:339-347 | when the drained event lets `shutdown` return, every lane is empty and stays empty |
| AdmissionWaiting.WaitsItsFullTime | app/capacity.py:169-228 | as long as less time than its lane allows has passed since its arrival, a waiter that is not withdrawn is queued, granted or inside its operation, and never refused, along every run without a shutdown; a granted one can always go on |
| AdmissionWaiting.FreedSlotIsTaken | app/capacity.py:166-239 | whenever during that time an owner of the lane leaves or fails and gives up its slot, a waiter takes the slot in the same step, and one that came no later |
| AdmissionWaiting.IsRefusedInTheEnd | app/capacity.py:169-173 | once that time is over, the next promotion of the lane refuses a waiter that is still queued |
| AdmissionWaiting.WaitersAreAnswered | app/capacity.py:166-347 | a ticket leaves its queue only by a grant, a refusal or its own withdrawal, and shutdown refuses all of them |
| AdmissionWaiting.LeaversAreGone | app/capacity.py:230-268 | a waiter that withdraws and an operation that ends are out of queue and active set at once, and stay gone along every run |
| AdmissionOwnership.LeasesAreBounded | app/capacity.py:316-337 | at most five leases, only of lanes that may take one |
| AdmissionOwnership.OneThreadEach | app/capacity.py:399-416 | no owner has two threads, and a released owner has none and no slot |
| AdmissionOwnership.StepKeepsOwnership | app/capacity.py:246-416 | every step that `Admission` allows keeps the agreement of threads, leases, flags and phases |
| AdmissionOwnership.RightsAreGivenOnlySo | app/capacity.py:246-416 | over all steps, an owner gets a borrow, a connection, a lease or a thread only by its own request, and what that request must have been; no connection and no thread after its operation is over |
| AdmissionOwnership.EndsUndoGrants | app/capacity.py:270-416 | the end of a granted borrow, connection or lease restores the state before it, and so does that of a thread but for the count of threads |
| OwnedWork.HappenOk | app/capacity.py:246-416 | whatever happens to the drains, calls and leases, interrupted or not, is a run of steps that `Admission` allows, and leaves every drain and call at a future that is done or that its owner has |
| OwnedWorkTheorems.CoursesAreGuarded | app/capacity.py:246-416 | a whole course of them is such a run too, so no unconditional discard, release or drop ever takes a thread that is at work |
| OwnedWorkTheorems.RunningWorkIsOwned | app/capacity.py:399-416 | in every course, with any cancellations, an unfinished executor future has a call that has not returned and exactly one owner, which is inside its operation and occupies its slot |
| OwnedWorkTheorems.CallsReturnAfterTheirThread | app/capacity.py:407-416 | the finally clause of `owned_thread`, with its unconditional discard, is only entered with a future that is done |
| OwnedWorkTheorems.NoWorkBehindACall | app/capacity.py:407-416 | a call that has returned or raised has left no thread at work |
| OwnedWorkTheorems.ReleasedOnlyWhenAllIsDone | app/capacity.py:254-268 | once an operation is over, every future ever started under it is done, although child tasks may start threads and other drains run while it drains |
| OwnedWorkTheorems.LeasesDropOnlyWhenAllIsDone | app/capacity.py:329-337 | the step that drops a lease finds every future ever started under its owner done |
| OwnedWorkTheorems.CancellationsAreRemembered | app/capacity.py:255-268 | in every course an owner is marked as cancelled, or a pending drain remembers that it is to be, if and only if a cancellation, its own or that of a future, has reached one of its awaits |
| OwnedWorkTheorems.DrainsMakeProgress | app/capacity.py:382-396 | when the future a drain awaits is done, the next wakeup, cancelled or not, shortens a backlog of at most two, and ends the operation exactly when nothing is left |
| OwnedWorkTheorems.DrainsMayWake | app/capacity.py:382-396 | a drain only waits for work that its owner has, and can wake when that is done |
| OwnedWorkTheorems.ShutdownLeavesNoWork | app/capacity.py:339-347 | when `shutdown` returns no thread of the manager is running, and none ever will |
| CapacityConfig.AcceptedEnvelope | app/capacity.py:80-134 | whatever `validate_capacity_config` accepts gives positive lanes whose runtime slots fit the runtime pool and whose control slots fit the control pool, and SQL deadlines whose milliseconds (app/account_context.py:309-312) fit 31 bits |
| CapacityConfig.DefaultsAreAccepted | app/capacity.py:82-100 | the default settings are accepted, and use exactly all slots of both pools |
| CapacityConfig.EnvelopeNeverGrows | app/capacity.py:80-134 | no accepted configuration has more slots than the defaults in any lane, but for a second lifecycle slot that the mail lane gives up, nor longer queues or larger input bounds |
| CapacityConfig.ShrinkingIsAccepted | app/capacity.py:80-134 | every configuration is accepted whose slots, waits, deadlines and input bounds are positive and, like its queues, not above the defaults |
| AdmissionConnections.LiveGrantsFit | app/application_roles.py:29-30 | in every run, connection requests granted to operations that are not over are at most six runtime and five control requests |
| AdmissionConnections.GrantsExceedExactlyByThoseLeft | app/capacity.py:366-379 | what a pool is asked for beyond its size is asked for by operations that are over, and never without any |
| AdmissionConnections.NeverLeftExactlyWhenNested | app/capacity.py:258-265 | connections stay inside their operations throughout a run if and only if no operation ends while its owner has one |
| AdmissionConnections.NestedGrantsFit | app/capacity.py:366-379 | then all granted requests fit their pool |
| AdmissionConnections.UnnestedGrantsAreUnbounded | app/capacity.py:246-268 | without that, for every number there is a run with as many granted requests at once |
| AdmissionShortage.ShortageNeedsWorkLeftBehind | app/capacity.py:246-379 | from any state that is open and whose slots use up the pool, operations that all end without a connection can ask it for more than it has if and only if one has already ended with a connection |
| AdmissionService.AdmissionManager.Expire | app/capacity.py:169-173 | the first loop of `_promote` over a copy of the queue |
| AdmissionService.AdmissionManager.FillSlots | app/capacity.py:174-182 | the second loop of `_promote`, whose skipping branches are never taken |
| AdmissionService.AdmissionManager.Promote | app/capacity.py:166-182 | `_promote` in place is the promotion step |
| AdmissionService.AdmissionManager.Acquire | app/capacity.py:184-228 | `_acquire` in place is the acquisition step, with its outcome |
| AdmissionService.AdmissionManager.IsTaken | app/capacity.py:208-216 | the two account checks together |
| AdmissionService.AdmissionManager.WaiterResumes | app/capacity.py:228-229 | the waiter of a granted ticket enters its operation |
| AdmissionService.AdmissionManager.WaiterFails | app/capacity.py:230-239 | the except branch of `_acquire` is the failing step, whether its ticket was still queued or already granted |
| AdmissionService.AdmissionManager.Leave | app/capacity.py:258-268 | the end of `operation` behind its drain, with the flag when that was cancelled; it does not look at the threads |
| AdmissionService.AdmissionManager.Shutdown | app/capacity.py:339-346 | the loops of `shutdown` empty every queue and refuse exactly the open tickets |
| AdmissionService.AdmissionManager.Borrow | app/capacity.py:270-313 | which borrows are granted to a current owner: not nested in another, for its principal or lane, once for each role |
| AdmissionService.AdmissionManager.Connect | app/capacity.py:366-379 | which connections are granted inside a borrow: of its role, to the asyncio task that opened it, before its operation is over, one at a time |
| AdmissionService.AdmissionManager.Lease | app/capacity.py:316-328 | which leases are granted |
| AdmissionService.AdmissionManager.DropLease | app/capacity.py:331-337 | the end of `lease` behind its drain, with the flag when that was cancelled |
| AdmissionService.AdmissionManager.StartThread | app/capacity.py:399-408 | blocking work starts only for an owner that is not released and has none yet |
| AdmissionService.AdmissionManager.DrainWakes | app/capacity.py:382-396 | one turn of `_drain` over the live set: it remembers a cancellation, discards the awaited future only when it is done, and goes on exactly when the set is not empty |
| AdmissionService.AdmissionManager.EndCall | app/capacity.py:415-416 | the finally clause of `owned_thread` discards its future, whatever its state |
| Newlines.Normalize | app/mime_preparation.py:26-50 | for every chunking the output is the input with CRLF and CR as LF and one final LF ensured |
| Newlines.NormalizedIsNormal | app/mime_preparation.py:26-50 | the result has no CR and ends in LF; normalizing again changes nothing |
| Newlines.LinesAreKept | app/mime_preparation.py:26-50 | lines that are joined by LF, by CR or by CRLF come out as the same lines joined by LF, empty ones and blanks included |
| QuotedPrintable.QpChunks | app/mime_preparation.py:53-82 | for every chunking the output is the wrapped lines of the whole body, and the final AssertionError is reached exactly when the input does not end in LF |
| QuotedPrintable.WrapOnce | app/mime_preparation.py:70-80 | the inner loop terminates: it cuts a line at most once for each byte |
| QuotedPrintable.LineIsEmptyOnlyAtLineEnds | app/mime_preparation.py:81-82 | when something is left in the line at the end |
| QuotedPrintable.CutIsBetweenTokens | app/mime_preparation.py:70-80 | a soft break never falls inside an `=XX` escape |
| QuotedPrintable.EncodeGivesGoodLines | app/mime_preparation.py:53-82 | for input without CR every physical line has at most 78 characters, is portable and does not end in a blank |
| QuotedPrintable.RoundTrip | app/mime_preparation.py:53-82 | decoding as section 6.7 of RFC 2045 says gives back every normalized body |
| QuotedPrintable.PlainTextStays | app/mime_preparation.py:53-82 | lines of printable text that need no escape and no break are written as they are |
| QuotedPrintable.SoftBreaksAreNeeded | app/mime_preparation.py:70-80 | a soft break only ends a line that was cut at 76 characters |
| Base64.RoundTrip | app/mime_preparation.py:120-130 | base64 decoding undoes encoding in both alphabets |
| Base64.EncodeConcat | app/mime_preparation.py:120-130 | whole groups encode on their own, so the grouping does not show |
| Base64.KnownEncodings | app/mime_preparation.py:120-130 | examples of section 10 of RFC 4648, and one for the last two letters of each alphabet |
| TransferEncoding.FirstTenLines | app/mime_preparation.py:85-97 | for every chunking the output is the input up to its tenth line end |
| TransferEncoding.FirstTenIsShortest | app/mime_preparation.py:85-97 | what those ten lines are: a prefix that has ten line ends and ends in the last, or everything |
| TransferEncoding.Scan | app/mime_preparation.py:100-113 | the counters of the first pass: ASCII, longest ended line, size of the first ten lines |
| TransferEncoding.ChooseCte | app/mime_preparation.py:100-117 | the choice is that of the sizes (see below) for every body and reader, and when it raises |
| TransferEncoding.ChoiceIsBySize | app/mime_preparation.py:100-117 | with a line over 78 octets, quoted-printable is chosen if and only if the first ten lines in quoted-printable are at most one octet longer than what `Base64.Encode` makes of them, and base64 otherwise; with no such line 7bit if and only if every octet is ASCII, and otherwise 8bit |
| TransferEncoding.Base64Chunks | app/mime_preparation.py:120-130 | for every chunking the output is lines of 57 encoded octets |
| TransferEncoding.Base64LinesAreFull | app/mime_preparation.py:120-130 | every base64 line but the last has 76 characters |
| TransferEncoding.WriteMime | app/mime_preparation.py:133-153 | for every body: the chosen encoding of the whole body follows the header, and exactly when it raises, with nothing or with all finished lines written |
| TransferEncoding.TransferRoundTrip | app/mime_preparation.py:133-153 | in every encoding a normalized body comes back, and the wire lines are framed by CRLF |
| TransferEncoding.ChosenLinesAreShort | app/mime_preparation.py:100-153 | in the chosen encoding every line fits in 78 octets, and only 8bit carries octets above 127 |
| DotStuffing.DotChunks | app/mime_preparation.py:176-190 | for every chunking the stuffed message, a final CRLF if it is missing, and the terminator |
| DotStuffing.WireDelivers | app/mime_preparation.py:176-190 | a receiver after section 4.5.2 of RFC 5321 reads up to the terminator and nothing less, with dots behind a bare LF doubled |
| DotStuffing.TransparentExactlyWithoutBareDots | app/mime_preparation.py:176-190 | the message arrives as it was if and only if no dot stands behind a bare LF |
| DotStuffing.BareDotIsDoubled | app/mime_preparation.py:176-190 | a message that arrives changed |
| MailPipeline.Deliver | app/mime_preparation.py:242-266 | normalizing, encoding and stuffing in sequence, for every chunking |
| MailPipeline.EndToEnd | app/mime_preparation.py:26-190 | unstuffing and decoding what is sent gives exactly the normalized input, and the terminator comes last only |
| MailPipeline.LinesFitTheEnvelope | app/mime_preparation.py:100-153 | for any input the encoded lines fit in 78 octets |
| TurnScheduler.StepKeepsInv | app/account_workers.py:49-77 | registering, cancelling a waiter and finishing keep queue, registrations, active label and waiting bounds in agreement |
| TurnScheduler.OneHolder | app/account_workers.py:49-77 | in every run at most one turn holds the scheduler, and the active label is the label of exactly that turn |
| TurnScheduler.NobodyIsStranded | app/account_workers.py:49-77 | an idle scheduler has an empty queue, and whoever waits has another turn to wait for |
| TurnScheduler.BoundedWaiting | app/account_workers.py:58-77 | between registration and grant at most five turns are granted, so a turn starts after at most six others; no turn is granted twice |
| TurnScheduler.TheLongestWaiterIsNext | app/account_workers.py:49-77 | when the holder ends, the longest waiter that was not cancelled is granted; the scheduler falls idle exactly when there is none |
| TurnScheduler.RegisterOutcome | app/account_workers.py:58-69 | in every run a turn is refused exactly while another of its label is not over, or seven turns are not; otherwise it is registered, and granted at once exactly if the scheduler is idle |
| TurnScheduler.CancelledIsNeverGranted | app/account_workers.py:49-77 | a turn that is cancelled while it waits is not granted in any run |
| TurnScheduler.FinishFreesTheLabel | app/account_workers.py:71-77 | the end of a turn frees its label and touches no other turn that is not over, whether it held the scheduler or not |
| SchedulerService.BackgroundScheduler.Advance | app/account_workers.py:49-55 | the loop of `_advance` in place |
| SchedulerService.BackgroundScheduler.Enter | app/account_workers.py:58-69 | `turn` up to its await, with its two refusals |
| SchedulerService.BackgroundScheduler.Leave | app/account_workers.py:71-77 | the finally block of `turn` |
| AccountRotation.RoundIsRotation | app/account_workers.py:164-182 | a new round is a duplicate-free cyclic rotation of exactly the enabled accounts that are ready or due, starting above the last starter |
| AccountRotation.TurnKeepsInv | app/account_workers.py:159-215 | every account in the round has a continuation entry, so the lookups of `run_turn` never fail |
| AccountRotation.RoundServesEachOnce | app/account_workers.py:159-215 | from any turn on, the accounts of its round are served in order and once each before a new round starts |
| AccountRotation.NoStarvation | app/account_workers.py:112-215 | an account that is ready and stays enabled gets a turn in every round that is made until a turn of its own ends inside `run_turn`, whatever wakes, failures and escapes happen |
| AccountRotation.WakeMakesReady | app/account_workers.py:112-116 | after a wake every account without a deferral, and with refresh every account, is ready with its old cursor; other deferred accounts are unchanged |
| AccountRotation.WhoIsInARound | app/account_workers.py:164-182 | an account is in a new round if and only if it is enabled and new, ready, due, or made ready by the wake; entries are kept for exactly the enabled accounts, and the first of the round is remembered as the last started |
| AccountRotation.IdleIsWoken | app/account_workers.py:112-215 | an account that is idle when a cycle is woken, or with refresh deferred, and stays enabled, gets a turn in the first round made after that, and in every one until a turn of its own ends |
| AccountRotation.FailuresLeaveOut | app/account_workers.py:183-215 | a turn that is refused or fails leaves its account idle with its cursor, and marks it as skipped exactly when capacity was refused before the turn was admitted |
| AccountRotation.OutUntilAWake | app/account_workers.py:112-215 | an idle account gets no turn before a wake |
| AccountRotation.ResultsAreKept | app/account_workers.py:183-215 | a completed turn leaves the result of its job, and no turn changes the entry of another account |
| AccountRotation.WakesInTimeExactly | app/account_workers.py:207-215 | the next wake time is not later than the earliest work if and only if no account is left in the round, or neither an account other than the one served nor the job's result is overdue |
| AccountRotation.OverdueWorkWaitsForTheClock | app/account_workers.py:212-214 | three turns from the start after which overdue work is announced late |
| AccountService.AccountWorker.WakeCycle | app/account_workers.py:112-116 | the loop over the continuations in place, whose result is the one of `AccountRotation.WakeMakesReady` |
| AccountService.AccountWorker.ScheduleContinuation | app/account_workers.py:118-123 | the wake time is the minimum over all work, and missing exactly when there is none |
| AccountService.AccountWorker.StartRound | app/account_workers.py:164-182 | the loop that fills a new round and the continuation entries |
| AccountService.AccountWorker.RunTurn | app/account_workers.py:159-215 | one turn in place, for every way the enumeration and the job can end, raising included |
| FailureTable.OpKeepsInv | app/ingest.py:105-139 | checks and failures keep the table bounded, ordered by last failure, made of latest failures, and in exact agreement with the window of the log |
| FailureTable.EvictedIsForgotten | app/ingest.py:134-136 | a key is evicted only when `max_keys` other keys have failed since its last failure |
| FailureTableTheorems.BlockedIsJustified | app/ingest.py:122-127 | a key is blocked only if the log holds `max_failures` of its failures in the window, so never because the table is full |
| FailureTableTheorems.BlockedIsExact | app/ingest.py:122-139 | a key is blocked if and only if the log holds `max_failures` of its failures in the window, and neither between two successive ones of the last `max_failures` nor since the last did `max_keys` other keys fail |
| FailureTableTheorems.FewKeysDecideByTheLog | app/ingest.py:122-139 | so the log alone decides while fewer than `max_keys` other keys have failed since the oldest of those failures |
| FailureTableTheorems.TableIsBounded | app/ingest.py:129-139 | at most `max_keys` different keys with at most `max_failures` times each, ordered by last failure |
| FailureTableTheorems.SweepsChangeNoAnswer | app/ingest.py:115-120 | when and how often the whole table is pruned changes no answer, now or later |
| FailureLimiterService.FailedAuthLimiter.Prune | app/ingest.py:105-113 | the popping loop of `_prune` |
| FailureLimiterService.FailedAuthLimiter.MaybePruneAll | app/ingest.py:115-120 | the loop over a copy of the keys prunes every entry |
| FailureLimiterService.FailedAuthLimiter.Blocked | app/ingest.py:122-127 | `blocked` in place |
| FailureLimiterService.FailedAuthLimiter.RecordFailure | app/ingest.py:129-139 | `record_failure` in place, with eviction and the capped deque |
| PngRows.EveryPixelInOnePass | app/avatar_images.py:152-155 | every pixel of an interlaced image has exactly one place in exactly one of the seven passes |
| PngRows.EveryPlaceIsAPixel | app/avatar_images.py:157-160 | every place of every pass is a pixel of the image |
| PngRows.AreasAddUp | app/avatar_images.py:152-160 | the areas of the seven passes add up to width times height |
| PngRows.ExpectedSizeIsThatOfTheRows | app/avatar_images.py:156-177 | the expected size is one filter byte and the row bytes of exactly the rows that are iterated, whose number is the initial count |
| PngRows.ReadsExactlyRows | app/avatar_images.py:180-201 | the row automaton accepts exactly the streams that split into the rows to come, each led by a filter byte of at most 4 |
| PngRows.RowReader.Consume | app/avatar_images.py:180-201 | one piece of data in place, skipping inside rows; the iterator never runs out |
| PngRows.ImageDataIsValid | app/avatar_images.py:148-216 | for every cutting of the inflated data the verdict is exactly completeness and splitting into all rows |
| PngChunks.ScanAcceptsExactly | app/avatar_images.py:93-145 | the chunk loop lets data through if and only if it is a sequence of chunks with right check values: header, orderly middle, end, and nothing behind it |
| PngChunks.VerdictIsAboutTheChunks | app/avatar_images.py:114-136 | for such chunks the verdict is too large by the header alone, or the image data in order |
| PngChunks.FoldIsOrderly | app/avatar_images.py:121-144 | the flags of the loop get through exactly the middles with one run of image data and at most one valid palette before it |
| PngChunks.DetectPng | app/avatar_images.py:84-145 | the loop over offsets, with all its early exits, gives the status that `PngImages` is about |
| PngImages.KindsByBits | app/avatar_images.py:103-151 | the accepted colour types and depths are the ones of the PNG specification by the bits for palette, colour and opacity, and so are the samples per pixel |
| PngImages.HeaderIsRead | app/avatar_images.py:100-104 | the header is read as it is written: two big-endian sides and five octets |
| PngImages.PalettesByBits | app/avatar_images.py:121-127 | a palette is accepted if and only if the image has colour and there are 1 to 256 entries of three octets |
| PngImages.SkippedChunksAreSmall | app/avatar_images.py:139-144 | another chunk is skipped if and only if the first letter of its name is a small one |
| PngImages.RowsHoldTheirBits | app/avatar_images.py:156-177 | the octets of a row are enough for its pixels, and not one too many |
| PngImages.ProperFilesAreJudgedByTheirPixels | app/avatar_images.py:84-216 | every file written by the specification is too large exactly beyond the limits, and otherwise valid exactly if its image data inflates to the samples of its pixels: without interlacing height rows of a filter octet of at most 4 and the octets of width times the samples of its colour type |
| SearchPattern.Trimmed | app/export_filters.py:82-94 | for every chunking the range of the stripped text in UTF-8 |
| SearchPattern.StripMeans | app/export_filters.py:85-93 | stripping removes white space at both ends only, and all of it |
| SearchPattern.SpacesAreThese | app/export_filters.py:82-94 | the 29 characters that count as white space |
| SearchPattern.RangeHoldsExactlyInUtf8Sizes | app/export_filters.py:82-94 | the trimmed range of a text stored in some codec holds the stripped text, for every text, if and only if the codec gives every character its size in UTF-8 |
| Utf8Codec.DecodeUndoesEncode | app/export_filters.py:45-61 | strict decoding gives back every text, whatever octets follow |
| Utf8Codec.EncodeUndoesDecode | app/export_filters.py:45-61 | whatever is decoded is the one encoding of its text, and the octets that were not used |
| Utf8Codec.DecodeInPieces | app/export_filters.py:45-61 | decoding may be cut anywhere, inside characters too |
| Utf8Codec.KnownEncodings | app/export_filters.py:45-61 | one character of each size, as in section 7 of RFC 3629 |
| TextStore.TextStore.Receive | app/export_filters.py:22-43 | a text is accepted exactly when frames of allowed sizes carry a whole text of the announced size, and its reference is where it was appended |
| TextStore.TextStore.Chunks | app/export_filters.py:45-61 | the reads of 16384 octets together give the text of the reference, with every error |
| TextStore.StoredTextIsRead | app/export_filters.py:22-61 | a stored text is read back from its reference, whatever lies around it |
| TextStore.TrimmedRangeIsRead | app/export_filters.py:82-94 | the trimmed range of any reference that reads a text reads that text stripped |
| SearchPattern.ReplacedIsEscaped | app/export_filters.py:121 | the three replacements in their order put one backslash before every special character |
| SearchPattern.EscapeConcat | app/export_filters.py:118-121 | escaping distributes over pieces |
| SearchPattern.PatternMatchesExactly | app/export_preparation.py:67-75 | the pattern with ESCAPE matches a string if and only if the string contains the search text, for any case folding |
| SearchRecords.RecordsCarryThePattern | app/export_filters.py:117-122 | for every chunking the records together are the escaped text between two percent signs |
| SearchRecords.PieceFits | app/export_filters.py:110-112 | a piece of 4096 characters always makes a record of an allowed size |
| SearchRecords.ParseUndoesFrame | app/export_preparation.py:46-61 | the reader reads written records back |
| SearchRecords.FrameUndoesParse | app/export_preparation.py:46-61 | whatever the reader accepts is exactly such records |
| SearchRecords.PatternFile.Record | app/export_filters.py:106-116 | one record with its refusals and counters |
| SearchRecords.Pattern | app/export_filters.py:97-123 | from the stored octets, read twice: the first error in reading, no search, an explained refusal, or the written file and counters |
| SearchRecords.Assemble | app/export_preparation.py:39-64 | nothing without a search, the refusal of another path, and the reader's loop, with every error, against the counters |
| SearchRecords.SearchMeansWhatWasTyped | app/export_preparation.py:39-64 | from the octets of the stored text through the file into the setting: when there is a search, when it is refused, and that the pattern means containment of the stripped text |
| ExpenseTotals.MoneyOfCents | app/expenses.py:123-124 | rounding leaves whole cents alone |
| ExpenseTotals.MoneyIsNear | app/expenses.py:123-124 | rounding never crosses an amount in whole cents and errs by at most half a cent |
| ExpenseTotals.HalvesGoAway | app/expenses.py:123-124 | half a cent is rounded away from zero |
| ExpenseTotals.AddAddsToTotal | app/expenses.py:222-224 | adding to any entry of a dictionary adds exactly that to the sum of its values |
| ExpenseReport.TallyTrips | app/expenses.py:186-208 | the distances per vehicle, and per month, are those of its counted trips, and which vehicles and months appear |
| ExpenseReport.ExclusionsMeanPlainTrips | app/expenses.py:186-208 | an excluded trip counts as the plain trip that its exclusion makes of it, or not at all |
| ExpenseReport.PlainTripsCount | app/expenses.py:186-208 | a plain trip counts for its vehicle in its year, and for business if it was made for business |
| ExpenseReport.TallyExpenses | app/expenses.py:210-242 | every dictionary holds the sum it is named for, nothing is lost or counted twice, and every linked row is attributed |
| ExpenseReport.AttributionsAddUp | app/expenses.py:225-242 | for whole-cent amounts the rows attributed to a trip add up to its expenses |
| ExpenseReport.NoConflictMeansSameTrip | app/expenses.py:62-88 | each of the three conflicts of an attribution is there if and only if the listed trip has another vehicle, another day, or was not made with an own vehicle |
| ExpenseReport.BusinessWithinTotal | app/expenses.py:186-208 | business distance is part of all distance |
| ExpenseReport.OdometerSpan | app/expenses.py:259-286 | a span is trusted if and only if all readings between the anchors rise, positively and by at least the business distance |
| ExpenseReport.SpanIsUnique | app/expenses.py:259-286 | the readings and the business distance leave no choice between missing, trusted and ignored, nor of the distance |
| ExpenseReport.Increases | app/expenses.py:270-274 | comparing neighbours decides whether all readings rise |
| ExpenseReport.ActualWithinSpent | app/expenses.py:298 | the rounded actual total lies between the fully-business amount and everything spent on the vehicle |
| ExpenseReport.MonthsPriceEachTrip | app/expenses.py:290-296 | pricing the sum of each month is pricing each trip at the rate of its month |
| ExpenseReport.TripsArePriced | app/expenses.py:288-297 | in a year with its own rates the business trips before the month of a change are worth their miles times the first rate, and those from that month on times the second; in a year without rates all are priced at the rate that ends the latest earlier year (app/rates.py:20-56) |
| ExpenseReport.StandardBase | app/expenses.py:288-297 | the loop over the months gives what the business trips are worth at the rates in force (`ExpenseReport.TripsArePriced`), and nothing without a trip or a rate |
| ExpenseReport.Compare | app/expenses.py:253-324 | one comparison: the odometer is used exactly when its span is trusted and invalid exactly when it is ignored, a share in [0,1], an actual total within the spending, the leader and the difference |
| ExpenseReport.ReportConserves | app/expenses.py:326-335 | for whole-cent amounts the totals by category and by vehicle are the ledger total |
| ExpenseReport.BuildReport | app/expenses.py:162-338 | the whole report: one sound line for each vehicle driven or charged in the year, with its standard estimate from its trips, the attributions, and conservation |
| Cursor.DecodeUndoesEncode | app/api_cursor.py:46-70 | a cursor decodes to its position, for its own kind and check value only |
| Cursor.AcceptedIsWritten | app/api_cursor.py:53-70 | whatever text is accepted carries exactly the octets that its position is written with, and a position that a row can have |
| ExpensePaging.Where | app/expense_ledger.py:304-312 | the clauses put together select exactly the rows that are meant |
| ExpensePaging.SelectIsExact | app/expense_ledger.py:297-320 | the query returns exactly the matching rows, newest first, each once |
| ExpensePaging.SelectAfter | app/expense_ledger.py:310-312 | continuing after a row lists exactly the rows behind it |
| ExpensePaging.NextCursorContinues | app/api_expenses.py:207-222 | the cursor of a page passes the checks of the next request and continues after its last row |
| ExpensePaging.CursorsAreOfTheYear | app/api_expenses.py:200-223 | a cursor is taken if and only if it was made for an expense at midnight of a day of the year |
| ExpensePaging.ListIsOnePage | app/api_expenses.py:200-223 | one request gives the first rows after its cursor, and a cursor exactly when more follow |
| ExpensePaging.PagingListsTheYear | app/expense_ledger.py:323-329 | for any page size, following the cursors ends and lists the rows of the year exactly once, newest first |

## Left out

- Concurrency primitives: asyncio tasks, context variables, executors and pools are replaced by the choice of what happens next and an explicit owner. The steps of one task are not kept in their order, and every turn of a drain may be suspended, which only adds courses.
- `await_completion`: the same drain for a task instead of a thread, without an owner.
- AdmissionConnections.LiveGrantsFit: counts the requests that `ManagedPool` grants; the pool behind it is not modelled.
- AdmissionService.AdmissionManager.GiveBack: one borrow flag for each owner stands for the borrow object, because an owner's lane allows one role only.
- `lease_connection` and `snapshot`: never read by the modelled code.
- QuotedPrintable.RoundTrip: about bodies without CR that end in LF, which is what the normalizer writes; the encoder is not used on others.
- The email header generator, envelope decisions and the SMTP dialogue: library behaviour; the rendered header is a parameter.
- AccountRotation.NoStarvation: the older `run_once` sweep is not modelled; the batch and status records of a turn are not kept, nor the cursor that `before_turn` hands to the job.
- The capacity operation inside a background turn: a turn is only granted, held and ended here.
- FailureTable.OpKeepsInv: keys are digests already; collisions of SHA-256 and the bounded task set of `authenticate` are not modelled.
- zlib, CRC-32 and SHA-256: given as inflated pieces or as function parameters.
- JPEG and WebP detection: would add only easier members.
- TextStore.TextStore.Receive: for references without an encoding, as that of the search text; the dictionary of references by key is left out.
- SearchRecords.Pattern: the client codec is a function of single characters with at most four octets each, and none for a character it does not have.
- ExpenseReport.BuildReport: requires amounts that are not negative, as the table guarantees (migrations/011_expenses.sql:19), and distances that are not negative; distances and rates are reals, so float rounding is not modelled; vehicle names are left out, so the lines are not sorted by them.
- Time zones and dates: local years, days and year bounds are given as numbers.
- Cursor.AcceptedIsWritten: about the octets of a text and not its characters, since the unused low bits of a last character are ignored.
- ExpensePaging.SelectIsExact: the table is a sequence of rows with unique (date, id) keys that does not change while it is listed; PostgreSQL is not modelled, nor the oldest-first order that exports use.
- Routes, templates, sessions, SQL policies and everything else of the web application.
