# Verified model of the LLM Temporal worker

This project models, in Dafny 4.11, the parts of the worker where a mistake costs money or loses data,
and proves what they promise:

* **Dispatch** (`ProviderErrors`, `AdmissionRecord`, `DispatchMachine`, `DispatchSafety`,
  `DispatchStorage`, `DispatchLimits`, `DispatchLookups`, `DispatchLedger`, `DispatchResults`,
  `DispatchProgress`, `DispatchRetries`): one operation, its admission record, the stored
  responses with each process's memory of which one is the result, and any number of workers, as a machine
  whose runs are sequences of atomic steps with crashes, lost acknowledgements, retries, lease
  takeovers, fallbacks, recovery and polling.
* **Budget** (`Integers`, `BudgetWindow`, `BudgetHistory`, `BudgetEffects`, `Estimate`, `EstimateBounds`,
  `Reservations`, `Envelope`, `PlanCoverage`): sliding windows, exact and micro-dollar estimates, the merged reservation vector, its
  envelope, and what is held at every provider attempt.
* **JSON** (`JsonBytes`, `JsonText`, `JsonScan`, `JsonKeys`, `JsonCursor`, `JsonSplit`,
  `JsonUnambiguous`, `JsonCompact`, `JsonRaw`, `JsonMeaning`, `JsonStrings`, `JsonCanonical`,
  `JsonCanonicalText`, `JsonCanonicalizer`, `JsonEscapes`, `JsonScalars`, `JsonObjects`, `ItemWire`,
  `ItemCodec`, `ItemCopy`, `ItemRoundTrip`, `ItemCompact`, `ItemWriter`, `ItemText`, `ItemLetters`,
  `ItemNames`): texts are trees that keep every byte, and a text has
  exactly one tree; on these stand the byte cursor, the one-pass marshaller, the canonicalizer, the
  text of every item and the item copy.
* **Compaction** (`Transcript`, `TranscriptPositions`, `Turns`, `PrefixSelection`, `WindowSearch`).
* **Route status** (`RouteStatus`, `RouteHistory`, `StatusReplay`).
* **Small concurrent protocols** (`ExportBreaker`, `FillCoordinator`).

`dafny verify dfyconfig.toml` checks the whole project.

## Where the code and its promise differ

Eight promises do not hold of the code as it is. The model follows the code, shows each failure and says
exactly when it cannot happen.

* *At most one accepted submission.* The in-memory store acknowledges a possible-write mark on an
  operation that is already terminal under the same token, and taking over an expired lease keeps the
  token. `DispatchLimits.LeaseTakeoverSubmitsTwice` is a run with two accepted submissions, and
  `DispatchLimits.SecondSubmissionIff` says when the acknowledgement happens while a submission is live.
* *A failed recovery lookup stays ambiguous.* The egress-denied marker of the lookup's own error is found
  through the cause of the wrapping error, and the submission counts as never sent.
  `DispatchLookups.DeniedRecoverySubmitsTwice` is a run that can then submit twice, and
  `DispatchLookups.FailedRecoverySubmitsTwiceIff` says that exactly this marker does it.
* *A failed poll says nothing about the accepted operation.* Some poll errors end the operation as
  reopenable: `DispatchLookups.UnreachablePollSubmitsTwice` is a run with a poll that could not connect,
  and `DispatchLookups.FailedPollSubmitsTwiceIff` names exactly the errors, which differ between the
  submitting attempt, a retry that recovered, and a retry that resumed a pending operation.
* *Stored results are immutable by operation.* A process remembers the last result it stored and prefers
  it to the ledger's reference. `DispatchResults.StaleAnswerIsReplayed` is a run where an identical retry
  gets another response than the first caller, and `DispatchResults.ReplayReturnsRecordedIff` says when a
  retry gets the recorded one.
* *A crash between storing the result and completing the ledger is repaired.* Until the ledger is
  completed only the process that stored the result knows it. `DispatchResults.StoredResultIsLost` is a
  run where it restarts and nobody ever gets the response, and
  `DispatchResults.CrashBeforeCompletionIsRepairedIff` says that a retry repairs exactly when it runs in
  a process that remembers the result.
* *No window holds more than its limit.* A reservation's bucket is fixed when it is quoted, but checked
  and granted later, and a fallback sends the buckets of the original quote.
  `BudgetHistory.LateFallbackOverspends` grants twice the limit within one window;
  `BudgetHistory.QuoteIsSafeIff` says that exactly quotes in the bucket of their check are safe, and
  `BudgetHistory.EveryIntervalWithinLimit` what remains for quotes that are late by some buckets.
* *The plan's own envelope is admissible.* It is exactly when every matched window is matched by a
  candidate attaining the micro-dollar maximum (`Envelope.PlanEnvelopeAgreesIff`);
  `Envelope.DearerUnmatchedFallbackIsRefused` is a plan, priced by the estimator, where it is not.
* *An account out of credit opens the circuit at once.* Exhaustion reported while credit is already low
  is not recorded (`StatusReplay.LowCreditMasksExhaustion`); `RouteStatus.ExhaustionOpensIff` says exactly
  when the report leaves the circuit open.

`DispatchSafety.AtMostOneSubmission` proves the first promise for every run of truthful adapters in which
none of the three things happens that break it: a stale acknowledgement, an egress-denied recovery
lookup, a misread poll. Truthful is a condition on what adapters report, not on what the engine makes of
it: a response is the provider's, and a fault that denies the submission, or a declared failure that
disowns it, means that nothing of it is outstanding. The error of a lookup that failed claims nothing.

One promise depends on how the client is built. While a probe of the export breaker is in flight every
other caller fails fast exactly when the transport ends each request before the cooldown, or there is a
single slot (`ExportBreaker.FailsFastIff`). The worker passes its client no transport, so it gets one with
a limit of five seconds and the promise holds (`ExportBreaker.DefaultClientFailsFast`). With a transport that
may take a cooldown, a second probe joins the first (`ExportBreaker.SlowProbeIsJoined`).

## Model

| member | source | states |
|---|---|---|
| ProviderErrors.VerdictIs | golang/engine/attempt.go:287-327 | what a caller is told of a failed submission: its own error on a denial, that the provider is unavailable when the egress guard stopped it or nothing mapped it, and otherwise that the dispatch is ambiguous and is not to be retried |
| ProviderErrors.RecoveryFailureStaysUndecidedIff | golang/engine/resumable.go:43-69 | a failed recovery lookup keeps an undecided submission undecided exactly when its error carries no egress-denied marker |
| ProviderErrors.PollFailureReopensIff | golang/engine/resumable.go:115-126 | which poll errors end an accepted operation as reopenable, both directions, for a resumed pending operation and for a poll whose error is classified again |
| ProviderErrors.UnreachablePollReopens | golang/engine/provider_pending.go:140-152 | a poll that could not connect is such an error on every path |
| DispatchSafety.StepKeeps | golang/engine/attempt.go:92-189 | every truthful step of every worker, other than a stale mark acknowledgement or a misread lookup, keeps the dispatch invariant |
| DispatchSafety.AtMostOneSubmission | golang/engine/attempt.go:29-57 | over every such run of any number of workers with crashes, lost acknowledgements, retries and fallbacks, no two submissions are both accepted or undecided |
| DispatchStorage.CompletedIsStored | golang/engine/finalize.go:118-134 | over every run and for every adapter, a completed operation refers to a stored response and no other state refers to one, a worker completes only with a stored response, and every remembered reference names a stored one |
| DispatchSafety.CompletedMeansStoredAndAcceptedOnce | golang/engine/finalize.go:118-134 | in every sound run a completed operation refers to a stored response that one submission was answered with, and all others were refused |
| DispatchLimits.SecondSubmissionIff | golang/storage/memory/admission.go:182-208 | while a submission is live, a trying worker's mark is acknowledged exactly when the record is terminal under the same token, and its write is then a second live submission |
| DispatchLimits.LeaseTakeoverSubmitsTwice | golang/engine/generate.go:380-462 | a concrete run with truthful adapters in which a lease takeover leads to two answered submissions |
| DispatchLimits.ExclusiveLeasesSubmitOnce | golang/engine/generate.go:345-378 | if a lease is only taken over after its holder is gone, no mark acknowledgement is lost and no lookup is misread, no run of truthful adapters submits twice |
| DispatchLookups.FailedRecoverySubmitsTwiceIff | golang/engine/resumable.go:21-86 | a recovery lookup that fails, in the submitting attempt or in a retry, opens the way to a second submission exactly when it carries the egress-denied marker, and otherwise no sound run has two |
| DispatchLookups.DeniedRecoverySubmitsTwice | golang/engine/resumable.go:62-69 | a concrete run, faultless but for an egress-denied recovery lookup, that can submit twice |
| DispatchLookups.FailedPollSubmitsTwiceIff | golang/engine/resumable.go:88-133 | a poll that fails, whoever makes it and whether or not a candidate is left, opens the way to a second submission exactly on the named errors, and otherwise no sound run has two |
| DispatchLookups.UnreachablePollSubmitsTwice | golang/engine/resumable.go:202-256 | a concrete run, faultless but for one poll that could not connect, that can submit twice |
| DispatchLedger.StepFollowsLedger | golang/admission/transition.go:5-23 | every step moves the record along a declared edge or a provider-pending edge; a terminal record changes only when a reopenable failure is reserved again under a fresh token |
| DispatchLedger.TerminalIsFinal | golang/storage/memory/admission.go:123-180 | over every run, a terminal record that is not reopenable never changes, its result reference included |
| DispatchResults.EveryCallerGetsOneAnswer | golang/engine/finalize.go:118-134 | over every sound run all callers that get a response get the same one, at any two times and in any processes, and it is the one the completed ledger refers to; that a success does reach its caller is stated by the DispatchProgress rows |
| DispatchResults.CrashBeforeCompletionIsRepairedIff | golang/internal/runtime/result_store.go:158-198 | after a crash between result write and ledger completion a retry gets the stored response without an adapter call exactly when it runs in a process that remembers it |
| DispatchResults.StoredResultIsLost | golang/engine/generate.go:388-444 | a concrete run in which the process restarts in between and no later request ever gets the response, although it is still stored |
| DispatchResults.CompletedReplays | golang/engine/generate.go:546-565 | over every sound run, however much later and in whatever process, an unexpired identical retry of a completed operation returns the response recorded then |
| DispatchResults.ReplayReturnsRecordedIff | golang/internal/runtime/result_store.go:180-198 | over every run, a replay returns the recorded response exactly when its process remembers none or that one |
| DispatchResults.StaleAnswerIsReplayed | golang/internal/runtime/result_store.go:120-136 | a concrete run in which the first caller and a later identical retry get different responses |
| DispatchProgress.ReportedSuccessIsReturned | golang/engine/attempt.go:148-152 | a success that an attempt reports, while its token is current and the operation open, is returned to its caller with the response stored and the ledger completed with it, once both stores have taken it |
| DispatchProgress.RecoveredSuccessIsReturned | golang/engine/resumable.go:47-58 | the same for a success that a recovery by idempotency key finds, whoever makes it and whatever made it necessary |
| DispatchProgress.PolledSuccessIsReturned | golang/engine/resumable.go:253-255 | the same for a success that a poll finds, by the submitting attempt, a recovery or a resumed pending operation |
| DispatchProgress.StoredResponseIsTold | golang/engine/finalize.go:118-134 | a response that is stored is remembered where there is room and completes the ledger; its caller gets it unless the acknowledgement is lost |
| DispatchProgress.RepairedResponseIsTold | golang/engine/generate.go:388-444 | the same for a stored response that a retry finds |
| DispatchProgress.RefusedRepairChangesNothing | golang/engine/generate.go:388-444 | a repair that cannot be stored fails its caller and changes nothing else |
| DispatchProgress.PendingReportIsPolled | golang/engine/resumable.go:96-114 | accepted but unfinished work is recorded as provider_pending, and then polled by the same attempt |
| DispatchProgress.PendingRecoveryIsPolled | golang/engine/resumable.go:96-114 | the same when a recovery finds it, for whoever makes the recovery |
| DispatchProgress.UndecidedPollKeepsPending | golang/engine/provider_pending.go:140-152 | a poll that finds the work unfinished, or fails in a way that says nothing about it, changes nothing but that its caller fails |
| DispatchProgress.FailedReportSettles | golang/engine/attempt.go:160-176 | a failure nobody takes up is settled as a definite failure exactly on a denial, reopenable exactly when the denial offers another attempt, and else as ambiguous |
| DispatchProgress.FailedRecoverySettles | golang/engine/resumable.go:92-93 | the same for a failure that a recovery finds declared |
| DispatchProgress.FailedPollSettles | golang/engine/resumable.go:240-251 | a failed poll that says something is settled by the first mapped error for a resumed pending operation, and by its evidence for any other |
| DispatchProgress.UselessAnswerIsAmbiguous | golang/engine/resumable.go:94-95 | an answer that is invalid or not found ends the operation as ambiguous, from a submission, a recovery and a poll |
| DispatchProgress.UnstoredResultIsAmbiguous | golang/engine/finalize.go:118-134 | a response that cannot be stored ends the operation as ambiguous |
| DispatchProgress.UnrecordedWorkIsAmbiguous | golang/engine/resumable.go:96-113 | work whose provider operation cannot be recorded, or not surely, ends as ambiguous |
| DispatchProgress.CompileFaultSettles | golang/engine/attempt.go:115-121 | a call that cannot be compiled is passed over when nothing can have been sent, and settled otherwise |
| DispatchProgress.DeniedReportFallsBack | golang/engine/attempt.go:169-187 | a denial that offers another attempt, with a candidate left, reserves the operation for it under the next token, or ends it as a definite failure when the budget denies that |
| DispatchProgress.UndeniedReportIsRecovered | golang/engine/resumable.go:60-77 | a failure that is no denial is looked up by idempotency key first, where the adapter can |
| DispatchProgress.NothingDispatchedEnds | golang/engine/attempt.go:251-266 | a plan under which nobody was tried ends as a definite failure that is not reopened |
| DispatchProgress.UnheardMarkTriesOn | golang/engine/attempt.go:29-57 | without an acknowledged mark nothing is sent, and the attempt goes on to the next candidate |
| DispatchProgress.UnheardCloseEnds | golang/engine/attempt.go:251-285 | closing a plan without an acknowledged mark ends there, but for a cancellation, which settles all the same |
| DispatchProgress.UnheardFallbackEnds | golang/engine/attempt.go:177-180 | a fallback that is not acknowledged fails its caller and leaves the reservation for a later request |
| DispatchRetries.RequestMeets | golang/engine/generate.go:345-462 | what a new request finds for every state of the ledger: a fresh or reopened reservation, a lapsed one taken over, pending work to poll, a result to look for, or a failure that changes nothing |
| DispatchRetries.ResultIsResolved | golang/engine/generate.go:380-444 | a request returns a completed operation's stored response, repairs a dispatching one with its, recovers it when there is none, and fails when the store cannot be read |
| DispatchRetries.SubmissionIsReturned | golang/engine/attempt.go:29-57 | from a reservation under its token, an attempt that is let through submits once and its answer is stored, completes the ledger and is returned |
| DispatchRetries.ConflictIsNeverAnswered | golang/engine/generate.go:345-378 | over every run a request with another digest than the operation's never gets its response |
| DispatchRetries.ReplaysIff | golang/engine/generate.go:546-565 | a completed operation is replayed exactly to identical requests before it expires |
| DispatchRetries.AnswerableIff | golang/engine/generate.go:380-462 | after any run whatsoever a new identical request can still be answered exactly when the operation has not failed for good |
| BudgetWindow.FloorDivIsFloor | golang/budget/window.go:61-71 | truncating division with the correction is the mathematical floor, at negative times too |
| BudgetWindow.RangeIsBounded | golang/budget/window.go:73-78 | a window never spans more than duration/bucket + 2 buckets |
| BudgetWindow.ActiveSum | golang/budget/window.go:80-97 | the sum of the window's buckets, or failure exactly when a partial sum leaves the safe range |
| BudgetWindow.CanReserve | golang/budget/window.go:99-111 | allows exactly what fits under the limit; the error cases exactly |
| BudgetWindow.WaitEndsAtExpiry | golang/budget/window.go:121-139 | the amount does not fit at any instant before the expiry of the bucket that frees enough, and fits at it |
| BudgetWindow.RetryAfter | golang/budget/window.go:113-141 | after a denial the positive least wait, and the maximum value exactly when the amount alone exceeds the limit |
| BudgetHistory.EveryIntervalWithinLimit | golang/storage/memory/admission.go:438-517 | over every history of admissions and settlements with quotes at most some buckets before their check, every closed interval shorter than the window by that many buckets holds at most the limit plus what settlements charged beyond their reservation |
| BudgetHistory.QuoteIsSafeIff | golang/engine/generate.go:332-343 | after any history of fresh quotes without charges beyond a reservation, an accepted reservation leaves every later interval one window long within the limit exactly when it was quoted in the bucket of its check |
| BudgetHistory.StaleQuoteOverspends | golang/engine/attempt.go:191-206 | after any such history, a reservation quoted in an earlier bucket than its check can be followed by a grant that fills one window with the whole limit and the stale amount |
| BudgetHistory.LateFallbackOverspends | golang/storage/memory/admission.go:318-331 | a concrete history that grants twice the limit within one window |
| BudgetEffects.ReservationIsExact | golang/storage/memory/admission.go:438-491 | after any history a reservation is granted exactly when it fits with what the window's buckets hold and its bucket stays in range, and is then charged in full to the bucket it was quoted in |
| BudgetEffects.SettlementIsExact | golang/storage/memory/admission.go:493-517 | after any history a settlement takes effect exactly when its bucket stays in range, and changes what was spent in exactly the intervals that hold its grant, by exactly the difference |
| Estimate.EstimateNeverUnderReserves | golang/budget/estimate.go:140-209 | the dollar estimate covers the exact price, allowance and ratio, and the micro-dollar estimate covers it rounded up |
| Estimate.EstimateCost | golang/budget/estimate.go:140-209 | the accumulating loop computes exactly the specified estimate, or none |
| EstimateBounds.EstimateIsNear | golang/budget/estimate.go:140-209 | the dollar estimate exceeds the exact price by less than one unit for each rounding, and not at all when nothing is rounded |
| EstimateBounds.MicroEstimateIsNear | golang/budget/estimate.go:140-209 | the same for the micro-dollar estimate, which is rounded for the allowance as well |
| EstimateBounds.EstimateExactly | golang/budget/estimate.go:140-209 | there is an estimate exactly when every component is valid and known, the ratio positive and nothing overflows, and then it is the sums with the allowance under the ratio |
| EstimateBounds.ExactIsThePrice | golang/pricing/decimal.go:275-300 | the exact price is the decimal price times the units, per unit of the price, in 10^-18 dollars |
| Estimate.ScaleCovers | golang/budget/estimate.go:542-567 | scaling both amounts by a ratio and rounding up keeps the micro-dollar amount above the dollar amount |
| Estimate.AddMediaAllowance | golang/budget/estimate.go:516-533 | an allowance never changes whether a request fits its context, fills exactly the room left, and saturates |
| Reservations.SortReservations | golang/engine/generate.go:525-535 | the in-place insertion sort orders by policy and window and keeps every element |
| Reservations.MergedIsLargest | golang/engine/generate.go:496-507 | per window the map holds a largest reservation, ties broken by exact dollars |
| Reservations.AggregateReservations | golang/engine/generate.go:496-523 | one entry per window in strict order, each the largest of its window carrying the plan's dollars |
| Reservations.OnlyAggregate | golang/engine/generate.go:520-523 | there is only one such vector, so map iteration order cannot show |
| Reservations.SortedByPolicy | golang/engine/generate.go:525-535 | the order of the vector is by policy, and within a policy by window |
| Envelope.ValidateReservationEnvelope | golang/admission/reservation.go:18-39 | accepts exactly equal amounts with distinct identities and a safe scalar |
| Envelope.EnvelopeAgreesIff | golang/admission/reservation.go:18-39 | what it accepts, field by field: a safe scalar, the same amount in every entry, and no two entries for one bucket of one window |
| Envelope.ValidateExactUSDReservationEnvelope | golang/admission/reservation.go:51-114 | accepts exactly envelopes whose exact dollars agree, are covered and respect exact limits |
| Envelope.ExactLimitIff | golang/admission/reservation.go:98-110 | an exact limit bounds the integer one by its whole micro-dollars, or by one if it has none |
| Envelope.EntryCoversItsCandidates | golang/engine/generate.go:496-523 | an entry is at least the estimate of every candidate matching its window and equals one of them |
| Envelope.PlanEnvelopeAgreesIff | golang/engine/generate.go:304-312 | with agreeing limits the plan's envelope passes the exact check exactly when every matched window is matched by a candidate attaining the maximum |
| Envelope.EstimateIsQuoted | golang/engine/generate.go:304-312 | every estimate the estimator produces satisfies what the envelope and coverage results need |
| Envelope.DearerUnmatchedFallbackIsRefused | golang/admission/reservation.go:28-31 | a dearer fallback that matches no window, priced by the estimator like the first candidate, makes the plan's envelope fail |
| PlanCoverage.ReservationCoversEach | golang/engine/generate.go:345-357 | a reservation for a plan covers each of its candidates, in total and per matched window |
| PlanCoverage.Quote | golang/engine/attempt.go:191-207 | the maxima and merged vector re-reserved for the remaining candidates |
| PlanCoverage.DispatchPlan | golang/engine/attempt.go:99-189 | exactly the candidates are tried that the plan reaches within the cap, in order and once each; at every attempt what is held is the reservation for everyone since the last rejection and covers the candidate; the first candidate it does not move past decides which of the six endings it has, and with none it dispatched nothing |
| PlanCoverage.StopsOnce | golang/engine/attempt.go:99-189 | a plan stops at one candidate at most, and at none only if it passes everyone within the cap |
| JsonBytes.PlainDenotesItself | golang/llm/jsonutil.go:286-303 | a literal without escapes and control bytes that is UTF-8 denotes its own bytes |
| JsonBytes.PlainString | golang/llm/jsonutil.go:289-303 | recognizes exactly those literals |
| JsonUnambiguous.OneDocument | golang/llm/jsonutil.go:334-352 | two well-formed documents with the same text are the same document |
| JsonScan.ValueIsSkipped | golang/llm/jsonutil.go:496-526 | skipping a value by counting brackets outside strings consumes exactly the value printed there |
| JsonCursor.Cursor.SkipSpace | golang/llm/jsonutil.go:435-444 | leaves exactly what follows the whitespace |
| JsonCursor.Cursor.SkipString | golang/llm/jsonutil.go:464-481 | succeeds exactly when the literal is closed, returns it and leaves what follows |
| JsonCursor.Cursor.SkipScalar | golang/llm/jsonutil.go:484-494 | leaves exactly what follows the bytes up to a delimiter |
| JsonCursor.Cursor.SkipValue | golang/llm/jsonutil.go:497-526 | succeeds exactly when the skip function does and leaves what it leaves |
| JsonCursor.Cursor.Key | golang/llm/jsonutil.go:529-542 | returns the decoded key on either path and leaves what follows; what each escape decodes to is stated by the JsonEscapes rows |
| JsonCursor.Cursor.UniqueKeys | golang/llm/jsonutil.go:546-631 | true exactly when no object at any depth repeats a decoded key, and then consumes exactly one value; keys spelled with different escapes repeat (JsonEscapes.TwoSpellingsRepeat) |
| JsonKeys.KeySet.Add | golang/llm/jsonutil.go:555-586 | reports a repeated key exactly, before, at and after the switch from the 16 slots to the set |
| JsonSplit.SplitJSONObject | golang/llm/jsonutil.go:643-687 | splits exactly the objects with distinct keys, into exactly the reference decoder's fields |
| JsonSplit.SplitJSONArray | golang/llm/jsonutil.go:691-719 | splits exactly the arrays, into exactly their raw elements |
| JsonCanonicalizer.VisitReference | golang/llm/jsonutil.go:357-424 | the reference token scan accepts exactly the values without repeated keys |
| JsonCanonicalizer.RejectDuplicateJSONKeys | golang/llm/jsonutil.go:343-352 | the fast walk with the reference fallback decides the same question |
| JsonRaw.MarshaledRawJSON | golang/llm/normalize.go:508-566 | for every byte text, the window-copying pass equals the byte-by-byte specification and fails exactly on excessive depth |
| JsonRaw.CompactSizeHint | golang/llm/canonicaljson.go:233-253 | counts every byte but whitespace outside strings |
| JsonRaw.RawTextIsCompacted | golang/llm/normalize.go:500-507 | on well-formed text the result is the compacted tree, its length is the hint plus the escape growth, and it is refused exactly when nesting exceeds 512 |
| JsonRaw.RawTextIsStable | golang/llm/normalize.go:508-566 | marshalling again changes nothing, and the result is well-formed |
| JsonMeaning.EscapingKeepsText | golang/llm/normalize.go:521-535 | escaping <, >, & and the two separators keeps the denoted string, also next to surrogate escapes |
| JsonMeaning.RawTextKeepsMeaning | golang/llm/normalize.go:508-566 | marshalling raw UTF-8 JSON keeps the value it denotes |
| JsonStrings.EncodedReadsBack | golang/llm/canonicaljson.go:255-275 | a UTF-8 string survives being written and read, and what is written is a UTF-8 literal; the bytes written are stated by JsonEscapes.ByteIsWritten and JsonEscapes.RuneIsWritten |
| JsonStrings.WriteCanonicalString | golang/llm/canonicaljson.go:260-275 | the printable-ASCII fast path writes what the full encoder writes |
| JsonCanonical.CanonIsEqualIff | golang/llm/canonicaljson.go:168-190 | two values have the same canonical form exactly when they are equal up to key order |
| JsonCanonical.CanonicalIsFixed | golang/llm/canonicaljson.go:98-138 | a canonical value is its own canonical form |
| JsonCanonicalText.CanonicalIsStable | golang/llm/canonicaljson.go:41-48 | canonical text is well-formed, reads back to the same value, keeps nesting and is a fixed point |
| JsonCanonicalText.CanonicalTextsAgreeIff | golang/llm/canonicaljson.go:41-48 | canonical texts are identical exactly for inputs that differ only in whitespace, escape spelling and key order |
| JsonCanonicalizer.ParseCanonicalValue | golang/llm/canonicaljson.go:98-166 | succeeds exactly without repeated keys and within the depth limit, and yields the canonical form |
| JsonCanonicalizer.WriteCanonicalValue | golang/llm/canonicaljson.go:168-227 | appends exactly the canonical text |
| JsonCanonicalizer.CanonicalJSONWithLimits | golang/llm/canonicaljson.go:58-96 | accepts exactly within byte and depth limits and without repeated keys, and returns the canonical text, which is the same for every spelling of a string (JsonEscapes.TwoSpellingsOneText) |
| JsonCanonicalizer.CanonicalIsAccepted | golang/llm/canonicaljson.go:58-96 | canonical text is accepted again under the same limits with the same result |
| JsonEscapes.ShortDenotes | golang/llm/jsonutil.go:537-541 | in the bytes of section 7 of RFC 8259, each of the eight two-character escapes denotes its byte in front of any well-formed tail |
| JsonEscapes.NoOtherShort | golang/llm/jsonutil.go:537-541 | no other letter but u may follow a backslash |
| JsonEscapes.UnicodeDenotes | golang/llm/jsonutil.go:537-541 | a unicode escape, in either hex case, denotes the one character whose number its digits are |
| JsonEscapes.PairDenotes | golang/llm/jsonutil.go:537-541 | two unicode escapes that are a surrogate pair denote the one character beyond the first plane |
| JsonEscapes.SpellingDenotes | golang/llm/jsonutil.go:537-541 | anywhere in a string, the two-character escape and the unicode escape of its byte denote the same string, with that byte in its place |
| JsonEscapes.TwoSpellingsRepeat | golang/llm/jsonutil.go:546-586 | two keys of one object spelled these two ways are a repeated key |
| JsonEscapes.TwoSpellingsOneText | golang/llm/canonicaljson.go:41-48 | spelling a string or a key the other way leaves the canonical text what it is |
| JsonEscapes.ByteIsWritten | golang/llm/canonicaljson.go:255-275 | the bytes written for every ASCII byte, in front of what is written for the rest |
| JsonEscapes.RuneIsWritten | golang/llm/canonicaljson.go:255-275 | a character beyond ASCII is written as it is, but for U+2028 and U+2029 |
| JsonEscapes.StrayByteIsWritten | golang/llm/canonicaljson.go:255-275 | a byte that begins no character is written, and read, as U+FFFD |
| JsonEscapes.PaddingIs | golang/llm/jsonutil.go:435-444 | the four whitespace bytes, and no others, may stand around a value |
| JsonScalars.Base64ReadsBack | golang/llm/jsonutil.go:267-284 | a byte slice survives being written in base64 and read, and what is written is a literal |
| JsonScalars.QuantumIsWritten | golang/llm/jsonutil.go:267-284 | three bytes are written as the four letters of their 24 bits, and a shorter end with padding |
| JsonScalars.SextetIsLetter | golang/llm/jsonutil.go:267-284 | the letters are those of table 1 of RFC 4648 |
| JsonScalars.BreaksAreSkipped | golang/llm/jsonutil.go:267-284 | a line break anywhere in base64 text does not change what is read |
| JsonScalars.IntegerReadsBack | golang/llm/jsonutil.go:250-265 | a non-negative 64-bit integer survives being written and read, and what is written is a number |
| JsonScalars.NegativeIsRead | golang/llm/item.go:981-991 | a negative integer is read down to the least there is, and one beyond the range is not read |
| JsonObjects.FieldsAreTheSplitOnes | golang/llm/jsonutil.go:49-56 | the fields decoding reads are exactly the raw fields the splitter cuts out of the text, each a well-formed text |
| JsonObjects.ElementsAreTheSplitOnes | golang/llm/jsonutil.go:59-70 | the same for the elements of an array |
| JsonObjects.ObjectReadsBack | golang/llm/jsonutil.go:721-723 | an object written from a map in key order has exactly the fields of the map, and no key twice |
| ItemWire.RecordReadsBack | golang/llm/jsonutil.go:162-177 | an object written from named fields is read as exactly those fields |
| ItemCopy.CopyParts | golang/llm/normalize.go:269-319 | the append loop computes the copy of every part, or none |
| ItemCopy.CopyItems | golang/llm/normalize.go:211-267 | the append loop computes the copy of every item, or none |
| ItemCopy.CopyRawIsTheOnePass | golang/llm/normalize.go:500-511 | copied raw JSON is exactly what the one-pass marshaller accepts and returns |
| ItemRoundTrip.PartRoundTrips | golang/llm/item.go:875-900 | whenever a part can be copied, its marshalled text is well-formed JSON, and decoding whatever is read from that text gives the copy |
| ItemRoundTrip.ItemRoundTrips | golang/llm/item.go:413-436 | the same for items, with omitted fields, empty payloads, escaped strings, base64 and rewritten raw JSON |
| ItemRoundTrip.CopyIsRoundTrip | golang/llm/item.go:457-464 | the copy of a whole transcript is what decoding its marshalled text gives |
| ItemCompact.PartIsSettled | golang/llm/item.go:500-506 | every part that can be marshalled, whatever its strings, is written compact and escaped, so appending it as it is and compacting it agree |
| ItemCompact.ItemIsSettled | golang/llm/item.go:48-64 | the same for items |
| ItemWriter.RecordText | golang/llm/item.go:52-54 | an object whose fields are listed in key order prints as they are listed |
| ItemWriter.MarshalTextPart | golang/llm/item.go:489-498 | the bytes appended for a text part are the text of its sorted object |
| ItemWriter.WriteParts | golang/llm/item.go:507-532 | fails exactly when a part does, and otherwise appends exactly the text of the array of parts |
| ItemWriter.MarshalMessage | golang/llm/item.go:48-64 | the bytes appended for a message are the text of its sorted object, or an error exactly when it is invalid; the text in letters is stated by ItemLetters.ItemIsWrittenAs and ItemLetters.MessageBegins |
| ItemWriter.MarshalToolResult | golang/llm/item.go:205-233 | the same for a tool result, with an empty name left out |
| ItemLetters.PartIsWrittenAs | golang/llm/item.go:489-835 | every part is written exactly when it is valid, and then in the letters of the format: its kind, every field name, their order and the punctuation |
| ItemLetters.ItemIsWrittenAs | golang/llm/item.go:48-370 | the same for every item, with both actors and with its parts in order |
| ItemLetters.MessageBegins | golang/llm/item.go:56-58 | a message begins with its actor and its content in exactly the source's letters, for both actors |
| ItemNames.KeyIsReadAs | golang/llm/jsonutil.go:49-56 | a key is read as the field it spells, and as none if it spells none |
| ItemNames.WordIsReadAs | golang/llm/item.go:14-34 | a kind or an actor is read as the word it spells, however it is escaped, and as none if it spells none |
| ItemNames.KeysAreFields | golang/llm/jsonutil.go:49-56 | the fields of an object are exactly what its keys name |
| ItemNames.PartHasItsFields | golang/llm/item.go:534-900 | a decoded part had its kind, every field it must have, and no field it may not have |
| ItemNames.ItemHasItsFields | golang/llm/item.go:66-436 | the same for an item |
| ItemNames.MediaHasOneSource | golang/llm/item.go:935-968 | a decoded image or document has exactly one source, of a media type on one line |
| ItemNames.ToolCallHasAName | golang/llm/item.go:921-933 | a decoded tool call has a name of one to 64 letters, digits, underscores and hyphens |
| ItemNames.ToolResultDefaults | golang/llm/item.go:235-275 | a decoded tool result without a name has an empty one, and without a flag is no error |
| ItemNames.NumbersAreBytes | golang/llm/jsonutil.go:267-284 | bytes are also read from an array of numbers, with null for zero |
| ItemCopy.NormalizationIsIdempotent | golang/llm/normalize.go:211-336 | a copy of a copy is the copy |
| Transcript.ValidateTranscript | golang/state/materialize.go:21-91 | accepts exactly the transcripts that follow the frontier rules and returns the open calls |
| TranscriptPositions.ValidIffAllFit | golang/state/materialize.go:21-91 | a transcript is valid exactly when every item fits where it stands, stated on positions, and what is open are the calls that wait at the end |
| TranscriptPositions.BetweenCallAndResult | golang/state/materialize.go:37-63 | every item between a call and its result is model output, a reference or a result, and behind the first of the results only results |
| Transcript.CutWhereNothingIsOpen | golang/state/materialize.go:11-16 | cutting where nothing is open leaves two valid transcripts, the second with the whole frontier |
| Turns.SplitTurns | golang/compaction/prefix.go:204-237 | the one-pass loop cuts exactly at the boundaries |
| Turns.TurnsTile | golang/compaction/prefix.go:197-203 | turns tile every transcript with non-empty ranges |
| Turns.TurnsBeginAtBoundaries | golang/compaction/prefix.go:208-218 | a turn begins exactly where no call is open, no reference follows and no provider state is cut from its continuation |
| Turns.TurnBeginsIff | golang/compaction/prefix.go:208-218 | the same stated on the roles of the items around it |
| PrefixSelection.SelectionIsSafe | golang/compaction/prefix.go:44-87 | prefix and retained items are a permutation of the transcript, both valid, the prefix closed and free of references, the retained part with the whole frontier |
| PrefixSelection.LastTurnsAreKept | golang/compaction/prefix.go:60-86 | the retained part is the references of the earlier turns and the last turns whole: as many as asked for, one if a call is open and none was asked for, or all there are |
| PrefixSelection.ShorterWindowIsSubsequence | golang/compaction/prefix.go:135-137 | a shorter retained window is a subsequence of a longer one |
| PrefixSelection.SelectPrefix | golang/compaction/prefix.go:44-87 | returns the specified selection, and each error exactly |
| WindowSearch.SearchTarget | golang/compaction/prefix.go:112-131 | the linear search stops at the longest window within the token target, or one turn |
| WindowSearch.SearchBound | golang/compaction/prefix.go:156-169 | the binary search finds the longest accepted shorter window, or one turn |
| WindowSearch.SelectBoundedRequestPrefix | golang/compaction/prefix.go:108-170 | for monotone tests, the longest window within the policy that passes both, or one turn; a zero window stays empty; each error exactly |
| RouteStatus.RouteProjection.Apply | golang/control/status.go:253-342 | the in-place update equals the step on values, and a rejected event leaves the projection unchanged; what the fields then say of the events applied is stated by RouteHistory.ProjectionSaysItsEvents |
| RouteStatus.ReachableProjections | golang/control/status.go:293-313 | after every event sequence exhausted credit, a billing issue and three failures each mean an open circuit, the count is at most three, and a confirmation time means a credit incident |
| RouteHistory.ProjectionSaysItsEvents | golang/control/status.go:253-342 | after every event sequence each field is what the events kept of the current epoch say on their own fields: the credit incident opened first and not cleared, a billing issue not cleared, the unavailable and degraded ones since all was well up to three, the circuit open since something opened it, its hold and the last confirmation |
| RouteHistory.ThreeFailuresOpen | golang/control/status.go:296-305 | three unavailable or degraded events leave the circuit open for as long as all is not well at an event since |
| RouteHistory.OneSubject | golang/control/status.go:260-281 | the events of one epoch are about one endpoint, and once a configuration is named about that one and its route |
| RouteStatus.CreditIncidentIsSticky | golang/control/status.go:282-287 | within an epoch a credit incident changes only through an applied explicit OK from the management API or an operator |
| RouteStatus.BillingIssueIsSticky | golang/control/status.go:288-292 | the same for a billing issue |
| RouteStatus.ExhaustionOpensIff | golang/control/status.go:282-313 | after any events, an applied report of exhausted credit leaves the circuit open exactly when credit was not already low or something else opens it or keeps it open |
| RouteStatus.HoldNeverShrinks | golang/control/status.go:314-319 | while the circuit stays open within an epoch its hold never moves back |
| RouteStatus.OpenCircuitNeedsHealth | golang/control/status.go:293-313 | over every run within an epoch, an open circuit is closed only if some event on the way reported health |
| RouteStatus.RedeliveryChangesNothing | golang/control/status.go:257-259 | an applied event delivered again, however much later, is rejected and changes nothing |
| RouteStatus.AppliedTimesIncrease | golang/control/status.go:257-259 | applied observation times strictly increase |
| StatusReplay.ReplayRouteStatus | golang/control/status_replay.go:69-118 | succeeds exactly on well-formed input, then equals applying the events up to the horizon with every counter; otherwise names what is wrong with the first bad event |
| StatusReplay.ReplayComposes | golang/control/status_replay.go:87-116 | replaying a concatenation is replaying its parts in turn |
| StatusReplay.VisibleIff | golang/control/status_replay.go:87-116 | exactly the events observed at the horizon or before it are seen |
| StatusReplay.ReplayIsConsistent | golang/control/status_replay.go:64-68 | every replayed projection keeps the incident and circuit rules and knows nothing past the horizon |
| StatusReplay.ReplayedIncidentIsDocumented | golang/control/status.go:145-187 | an exhausted account or a billing issue in the projection of valid events was reported by one of them, an operator's with a code or one with a documented provider code |
| StatusReplay.LowCreditMasksExhaustion | golang/control/status.go:282-287 | two valid operator events, low credit and then exhausted credit, leave low credit and a closed circuit |
| ExportBreaker.SlotsAreBoundedAndReturned | golang/langfuse/client.go:102-138 | in every interleaving requests in flight never exceed the capacity, slots taken are slots held, and no holder is stuck |
| ExportBreaker.SlotComesBack | golang/langfuse/client.go:210-223 | over every run a caller that still holds its slot has taken fewer than three steps of its own |
| ExportBreaker.ProbesAreACooldownApart | golang/langfuse/client.go:102-119 | while the breaker stays tripped a whole cooldown passes between successive admissions, and after the failure that tripped it |
| ExportBreaker.DeniedIff | golang/langfuse/client.go:102-138 | over every run a caller is turned away exactly when three failures were reported since the last answer and a hold of thirty seconds, from the failure that tripped the breaker or from a probe, has not passed |
| ExportBreaker.AnswerLetsThrough | golang/langfuse/client.go:133-135 | after an answer, and as long as nothing fails, everyone who decides is let through |
| ExportBreaker.PromptSendsFailFast | golang/langfuse/client.go:53-60 | in every run whose requests end before a cooldown, a probe is the only request in flight and every other caller is denied until it reports |
| ExportBreaker.FailsFastIff | golang/langfuse/client.go:99-119 | over every run of a client, callers fail fast while a probe is in flight exactly when its transport's limit is shorter than the cooldown or it has a single slot |
| ExportBreaker.DefaultClientFailsFast | golang/langfuse/client.go:86-93 | the client built without a transport, with its five second limit, always fails fast |
| ExportBreaker.SlowProbeIsJoined | golang/langfuse/client.go:110-117 | with at least two slots and a transport that may take a cooldown, a concrete run in which a second probe joins the first |
| FillCoordinator.OneOwnerPerFingerprint | golang/cache/service.go:69-82 | in every interleaving at most one caller fills a fingerprint, and the map has an entry exactly while one does |
| FillCoordinator.WaiterGetsItsOwnFlight | golang/cache/service.go:84-94 | a waiter that stays gets exactly its own flight's answer, whatever flights have begun since |
| FillCoordinator.AnswersMatchTheirFlight | golang/cache/service.go:96-118 | whoever left with an answer holds the answer of the flight they joined |
| FillCoordinator.EveryAnswerTellsItsFill | golang/cache/service.go:84-118 | over every run the owner and every waiter that stays get an error exactly when the fill of their flight failed, panicked or exceeded the limit, and otherwise the filled bytes |
| FillCoordinator.OtherFingerprintsStay | golang/cache/service.go:102-107 | over every run without steps for a fingerprint, its flight stays what it is |

## Left out

- Malformed JSON: the decisions of encoding/json on text that is not JSON; results are about well-formed texts, except where every byte text is named.
- The tokenizer of encoding/json: represented by the tokens of the tree that was printed.
- URL parsing: the set of allowed URIs is a parameter.
- The nesting limit of encoding/json: a text of any depth is read; the copy itself refuses raw JSON deeper than 512.
- Instructions, tools, output, sampling and continuation specifications of a request: the same copy pattern as items.
- Transcript.ValidateTranscript: returns the open calls as a set, so their sorting is not modelled.
- WindowSearch.SelectBoundedRequestPrefix: the request size and the extra bound are parameters that may fail; overflow of their sum is not modelled.
- The policy text, prompt rendering and summary items of compaction.
- `PollProviderOperation`: the bounded loop with sleeps; a poll is one step, which never submits.
- `hostedResearchInput`, PDF page bounds and text baselines: they only produce the token counts the estimate starts from.
- Retention sweeps of the in-memory store, and other stores.
- Expiry of results: a step in which a process forgets stands for expiry in its memory, sweep and a restart; a blob lasts as long as the operation that replays it, and a store that cannot be read answers no request. A deployment without a resolver, where a completed result is read only from that memory, is an unreadable store.
- What finalization adds to a provider's response: cost, route facts and a continuation handle are part of the response as stored; two workers that lift the same provider answer are taken to store the same response.
- Streaming, metrics, tracing, heartbeats, registration, configuration loading and payload conversion.
- Overflow of 64-bit time arithmetic, except where the code handles it.
- The time between admission and the request, and between the answer and its report: a request lasts from its admission to its report, and the transport's limit is taken to bound all of it.
- What json.Marshal writes for the parts without a writer of their own: given to `WriteParts` as the text of their sorted object.
- ExportBreaker.ProbesAreACooldownApart: a caller that finds every slot taken fails at once and is not a step; a denied caller's slot return is a step of its own, which allows more interleavings than the lock does.
