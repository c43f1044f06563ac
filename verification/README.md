# A verified model of the CRM's stateful core

The CRM is a multi-tenant inbox with an AI assistant. This project models the parts of it that keep state,
race, retry or charge money, and proves what holds over every input, every interleaving and every run.

| files | what they model |
|---|---|
| `WalletLedger`, `WalletService`, `WalletCalls` | the token wallet, its journal, its use cases under optimistic locking, and each call by itself |
| `Summarize`, `SummarizeBilling`, `SummarizeRuns`, `SummarizeRetries`, `SummarizeCache`, `SummaryCache` | the reserve / call / settle / save saga on top of the wallet, its runs and retries, and the summary rows |
| `OpenRouter`, `Durations` | the model client's retry loop under one deadline |
| `SessionEvents`, `SessionPipeline`, `QrCacheSteps` | the WhatsApp session event chain, its pump and the QR cache |
| `PolicyAudit`, `RecordingRepository`, `Ordering` | the policy diff, the recording decorator and the replay of its log |
| `AuditMerge`, `ConcurrentRecords`, `RecordsAlone` | the same decorator under concurrent callers |
| `Bootstrap`, `ScanGate` | the once-per-tenant bootstrap and the scan worker's semaphore |
| `Consent`, `Backfill`, `Limiter` | the consent ledger, the contact-name backfill, the one-token limiter |
| `MarkerKey`, `TenantAllowlist`, `Text` | the base64 key reader and the tenant list |
| `Options`, `Uuids`, `Fates`, `Picking` | shared types, and what it means to take some elements of a stream in order |

Concurrent code is a step system: `Enabled` and `Do` give the atomic steps of any number of participants, `Inv`
is inductive (`StepKeepsInv`), and the theorems speak about every state of every `Run`. Code that works by
changing fields is a class or a method with a loop, proved against a function; the laws are then proved of
that function. What such a function computes is stated once more on literal fields, names and numbers, apart from
its body (`...SpelledOut`, `...Exactly`). `dafny verify dfyconfig.toml` checks everything.

What the environment does is a parameter: clocks, store and network faults, the order of steps, crashes,
fetcher and model replies, the SHA-256 digest and the UUID library.

## Where the code does less than its words

- A summary row is documented as the only valid one of its conversation. That survives a save exactly when the
  save follows a miss (`SummaryCache.SaveKeepsAtMostOneExactly`). A forced refresh, or two requests that both miss,
  end with two summaries served (`SummarizeRuns.TwoSummariesServed`); runs with neither keep at most one
  (`SummarizeCache.CalmConversationHasOne`).
- Invalidating a conversation does not stop a summary begun before it and saved after it from being served:
  exactly the rows saved after the invalidation are (`SummarizeCache.ServedAfterInvalidation`,
  `SummarizeRuns.StaleSummaryIsServed`).
- The store serves a summary strictly before its expiry, the domain calls it valid up to and including it
  (`SummaryCache.DomainAndStoreDisagreeOnlyAtExpiry`). The store's invalidation marks expired rows as well.
- An answer is charged for and then dropped when the policy names no model, the model returns no text or a negative
  count, or the store fails (`SummarizeBilling.KeptExactlyWhen`, `SummarizeRuns.EmptyModelIsChargedForNothing`).
- Asking again under the same request id need not help. Left alone, an attempt whose model answers comes to save the
  answer exactly if the request was not released before and was not charged a different amount
  (`SummarizeRetries.AnsweredExactly`). So a request whose model call failed and was released never succeeds
  (`SummarizeBilling.GivenUpIsFinal`, `SummarizeRetries.ReleasedThenRetried`), and one that was charged and lost
  before it was saved is refused as a conflict whenever the new usage differs (`SummarizeRetries.PaidThenRetried`).
- Retry-After is multiplied in int64 and wraps beyond 9223372036 seconds (`OpenRouter.RetryAfterWraps`). It is
  honoured on 5xx as well as on 429.
- The timeout is not the smaller deadline in one saturated corner (`OpenRouter.DeadlineIsTheEarlier`,
  `OpenRouter.DeadlineCornerExample`).
- The audit log tells the stored policies exactly as long as no write or record was lost behind an error
  (`RecordingRepository.TruthfulUnlessLossy`), and repeating the call does not heal the gap
  (`RecordingRepository.RetryingHealsNothing`). `ConsentRequired` is in neither the diff nor the snapshot.
- Overlapping calls make the log wrong with no error at all. For any number of calls, failing or not, it is right on
  a scope exactly when its last creation or deletion fits the last write and the last row on each slot since
  carries that write's value (`ConcurrentRecords.TruthfulExactly`). Two upserts that read the same row are safe in
  every order only if they write the same (`AuditMerge.SafeExactlyIfSame`); two edits of different columns drift
  (`ConcurrentRecords.DifferentColumnsDrift`). An upsert and a delete that read the same row leave the log right
  exactly if there was a row and the delete wrote last, or there was none and the upsert did
  (`ConcurrentRecords.UpsertAndDeleteExactly`); an edit can outlive the deletion the log tells of
  (`ConcurrentRecords.EditOutlivesDelete`), and a delete that found no row can remove one without a trace
  (`ConcurrentRecords.DeleteRaces`). Calls that do not overlap on a scope are safe
  (`ConcurrentRecords.ApartIsTruthful`).
- A reader of the QR cache that finds the code it read expired throws away a live one stored since it read
  (`QrCacheSteps.LiveCodeLostExactly`, `QrCacheSteps.FreshCodeIsLost`).
- A bootstrap that panics leaves its mark, and the tenant is never tried again (`Bootstrap.LastAttemptIsFinal`).
- Two (bucket, key) pairs share a limiter id exactly when they are equal, or one bucket extends the other by the
  separator and more, and the rest of it, the separator and its key make up the other key
  (`Limiter.SameIdExactly`, `Limiter.CollidingPairs`).
- Two branches of the wallet's Reserve, Commit, Release and Grant are unreachable: a unique violation behind a
  matching version, which only the master grant can meet (`WalletService.UniqueIndexFiresExactly`), and a settlement
  refused by the aggregate (`WalletLedger.SettleNeverRefused`).

## Model

| member | source | states |
|---|---|---|
| WalletLedger.TokenWallet.Reserve | internal/wallet/wallet.go:118-129 | keeps 0 <= reserved <= balance; refuses exactly non-positive or unaffordable amounts and then changes nothing |
| WalletLedger.TokenWallet.Commit | internal/wallet/wallet.go:140-166 | gives back the whole hold and takes the amount, at most the hold; a refusal changes nothing |
| WalletLedger.TokenWallet.Release | internal/wallet/wallet.go:172-183 | gives the hold back, balance untouched; a refusal changes nothing |
| WalletLedger.TokenWallet.Grant | internal/wallet/wallet.go:197-208 | adds to the balance and never past int64; a refusal changes nothing |
| WalletLedger.GrowReserve | internal/wallet/wallet.go:118-129 | the row of an accepted reservation keeps the journal sound and its recomputed wallet is the mutated one |
| WalletLedger.GrowSettle | internal/wallet/wallet.go:140-183 | so does the row of a commit or release of an open reservation |
| WalletLedger.SettleNeverRefused | internal/wallet/wallet.go:140-183 | settling a genuine open reservation is never refused by the aggregate |
| WalletLedger.ChargedWithinReservation | internal/wallet/ledger.go:100-111 | in a sound journal a reservation has one settlement, within what it held |
| WalletService.ApplyKeepsInv | internal/adapter/db/postgres/wallet/wallet.go:93-168 | ApplyWithLock on a stale copy writes nothing, on a fresh one extends the journal soundly |
| WalletService.AllocateKeepsInv | internal/adapter/db/postgres/wallet/allocator.go:53-110 | the monthly grant, once per key, keeps the journal and all calls in flight sound |
| WalletService.StepKeepsInv | internal/wallet/usecase/usecase.go:168-506 | every step of every concurrent call keeps the row equal to what the journal justifies |
| WalletService.Conservation | internal/wallet/usecase/usecase.go:168-506 | in every reachable state balance = granted - charged, reserved = open reservations, and nothing overdraws |
| WalletService.LaterKeeps | internal/wallet/usecase/usecase.go:168-506 | the journal only grows and an answered call keeps its answer |
| WalletService.SuccessHasRow | internal/wallet/usecase/usecase.go:168-506 | a successful call stands for a row of the journal that says what it asked for |
| WalletService.OneRowPerKey | internal/adapter/db/postgres/wallet/wallet.go:172-192 | successful calls with one key stand for one row and got one answer |
| WalletService.SettledOnce | internal/adapter/db/postgres/wallet/wallet.go:194-211 | two successful settlements of a reservation are the same settlement |
| WalletService.HandleIsGenuine | internal/wallet/usecase/usecase.go:168-247 | a returned handle names a reservation the journal opened, for that amount |
| WalletService.ReservationBoundsCharge | internal/wallet/usecase/usecase.go:255-337 | a reservation is charged at most once and at most what it held |
| WalletService.ReleasedNeverCharged | internal/wallet/usecase/usecase.go:374-444 | once released, no later commit of that reservation succeeds |
| WalletService.ExhaustionIsContention | internal/wallet/usecase/usecase.go:72-72 | a call makes at most 256 attempts, is exhausted iff it made 256, and then at least 256 rows were written meanwhile |
| WalletService.LostRaceTriesAgain | internal/wallet/usecase/usecase.go:72-72 | a write that met a newer version changes nothing and loads again, up to the 256th attempt; a master grant returns it |
| WalletService.LostAcknowledgement | internal/adapter/db/postgres/wallet/wallet.go:93-168 | a write whose acknowledgement is lost is in the journal all the same |
| WalletService.RefusedFor | internal/wallet/usecase/usecase.go:168-506 | in every run a wrong amount, an empty key and a key over 128 characters are refused at once, in that order, and nothing else for them; a grant is refused its amount beyond that only if the balance would have passed int64 at an instant within the call |
| WalletService.AllocationSpelledOut | internal/adapter/db/postgres/wallet/allocator.go:53-110 | the monthly grant credits and logs its amount once per key; a failing repository call ends the call and changes nothing else |
| WalletCalls.CallAlone | internal/wallet/usecase/usecase.go:168-506 | from every state the wallet can be in, each of the five calls, left alone, has exactly the row, journal rows and answer of its sequential description: amounts, keys, replays, conflicts, refusals |
| WalletCalls.CallAloneInRun | internal/wallet/usecase/usecase.go:168-506 | the same as a continuation of any run |
| WalletCalls.MadeAgain | internal/wallet/usecase/usecase.go:280-300 | a call that wrote its row, made again, gets the same answer and no second row; another amount under its key conflicts; a master grant conflicts with itself |
| WalletService.InsufficiencyWasReal | internal/wallet/usecase/usecase.go:168-247 | "insufficient funds" was true of the wallet at some instant within the call |
| WalletService.UniqueIndexFiresExactly | internal/adapter/db/postgres/wallet/wallet.go:93-168 | behind a matching version the unique index fires iff the call is a master grant whose key is already in the journal |
| WalletService.MasterConflictMeans | internal/wallet/usecase/apply_master_grant.go:206-240 | a master grant, which does not retry, conflicts only if its key has a row or another row was written since it began |
| Summarize.KeysAreDistinct | internal/aiassist/usecase/summarize.go:519-521 | ledger keys of different tenants, conversations, requests or phases differ |
| Summarize.KeysFitTogether | internal/aiassist/usecase/summarize.go:154-161 | request ids fit up to 46 characters, and an accepted reserve key guarantees the other two |
| Summarize.StepKeepsInv | internal/aiassist/usecase/summarize.go:533-611 | every step of every attempt, wallet steps and crashes included, keeps the books tied together |
| Summarize.ReservedCanBeSettled | internal/aiassist/usecase/summarize.go:555-592 | when the model returns, neither the release nor the clamped commit is refused for its key or amount |
| SummarizeBilling.EveryChargeIsBilled | internal/aiassist/usecase/summarize.go:573-592 | every charge bills a request the model answered, under that request's own two keys: with u the int64 sum of the answer's tokens and h its reservation, the charge is u if 1 <= u <= h, h if u > h, 1 if u <= 0 |
| SummarizeBilling.AnswersAreTheModels | internal/aiassist/usecase/summarize.go:555-562 | the answers on record are exactly what the model returned to an attempt at the request |
| SummarizeBilling.ChargedAtMostOnce | internal/aiassist/usecase/summarize.go:514-521 | over any retries and interleavings a request is charged at most once |
| SummarizeBilling.ChargesAreApart | internal/aiassist/usecase/summarize.go:514-521 | charges of different requests are different rows out of different reservations |
| SummarizeBilling.NoAnswerNoCharge | internal/aiassist/usecase/summarize.go:555-562 | a request the model never answered costs nothing |
| SummarizeBilling.SavedIsPaid | internal/aiassist/usecase/summarize.go:590-610 | every saved summary was charged by that same rule, for its answer, out of the request's own reservation |
| SummarizeBilling.SavedRowSpelledOut | internal/aiassist/usecase/summarize.go:594-610 | the saved row has the answer's text and counts and the model, time and expiry of the attempt's own beginning |
| SummarizeBilling.AttemptIsItsBegin | internal/aiassist/usecase/summarize.go:181-230 | an attempt keeps the request, model, time to live and time it began with |
| SummarizeBilling.BeginsExactly | internal/aiassist/usecase/summarize.go:181-215 | an attempt is invalid, blocked, served from the cache or goes ahead, each exactly when: ids, request and prompt present, gates open, forced or no live summary |
| SummarizeBilling.AnswersArePassedOn | internal/aiassist/usecase/summarize.go:533-592 | an attempt that fails on the wallet reports the wallet's own error for that phase; one that does not goes on |
| SummarizeBilling.DroppedIsPaid | internal/aiassist/usecase/summarize.go:566-572 | an attempt that paid and did not save says whether the answer or the store was to blame |
| SummarizeBilling.GivenUpIsFinal | internal/aiassist/usecase/summarize.go:556-561 | after a release the request is never charged and no later attempt at it saves |
| SummarizeBilling.SettledMeans | internal/aiassist/usecase/summarize.go:514-592 | a request's reservation is settled iff the request was charged or given up, under its own keys |
| SummarizeBilling.KeptExactlyWhen | internal/aiassist/usecase/summarize.go:594-610 | in every run an attempt that comes to save has paid, and is saved iff the store takes it, it has text and no negative counts, and a model is named; otherwise no row is added |
| SummarizeRuns.UndisturbedPays | internal/aiassist/usecase/summarize.go:533-592 | from any reachable state an untried, affordable request left alone reaches its paid answer, and nothing else changes |
| SummarizeRuns.EmptyModelIsChargedForNothing | internal/aiassist/usecase/summarize.go:594-606 | a run that ends charged with no row, the policy naming no model |
| SummarizeRuns.TwoSummariesServed | internal/aiassist/usecase/summarize.go:204-215 | runs that end with two served summaries: a forced refresh, and two requests that both miss |
| SummarizeRuns.StaleSummaryIsServed | internal/aiassist/usecase/summarize.go:384-397 | a run in which a summary begun before an invalidation is served after it |
| SummarizeRetries.AnsweredExactly | internal/aiassist/usecase/summarize.go:555-592 | from any reachable state, an attempt holding its reservation whose model answers, left alone, comes to save the answer iff the request was not given up and every row under its commit key is a charge of this amount; otherwise it conflicts or is already completed, and a refusal or a replay writes nothing |
| SummarizeRetries.ReservesAgain | internal/wallet/usecase/usecase.go:168-247 | a request that has a reservation gets that one again for the same estimate and a conflict for any other |
| SummarizeRetries.RetriedExactly | internal/wallet/usecase/usecase.go:280-337 | so a retry of a request with the same estimate is decided by the same condition on the journal before it |
| SummarizeRetries.ReleasedThenRetried | internal/aiassist/usecase/summarize.go:555-562 | for every request and answer, a run: reserve, model failure, release, retry, answer dropped as already completed, nothing charged |
| SummarizeRetries.PaidThenRetried | internal/wallet/usecase/usecase.go:291-293 | for every request and answer, a run: charged seven tokens, crashed, retried; saved iff the new answer comes to seven tokens, else a conflict with the charge standing |
| SummarizeCache.CalmConversationHasOne | internal/aiassist/usecase/summarize.go:202-215 | over every run without force and without overlapping attempts on a conversation, it has at most one served summary |
| SummarizeCache.ServedAfterInvalidation | internal/aiassist/usecase/summarize.go:384-397 | after the last invalidation a row is served iff it was saved after it and has not expired |
| SummaryCache.DomainAndStoreDisagreeOnlyAtExpiry | internal/aiassist/summary.go:110-121 | domain and store validity differ at exactly the expiry instant |
| SummaryCache.NewSummarySpelledOut | internal/aiassist/summary.go:62-98 | a summary is made iff both ids, text, model and non-negative counts are there; it carries them, and is served and valid for its time to live, or for good without one |
| SummaryCache.UnusableForGood | internal/aiassist/summary.go:110-136 | an unusable row stays unusable and the first invalidation time is kept |
| SummaryCache.Summary.Invalidate | internal/aiassist/summary.go:128-136 | sets the invalidation time unless one is set |
| SummaryCache.Store.Save | internal/adapter/db/postgres/aiassist/aiassist.go:118-139 | appends the row |
| SummaryCache.Store.GetLatestValid | internal/adapter/db/postgres/aiassist/aiassist.go:87-112 | the most recently generated served row; none exactly on a miss |
| SummaryCache.Store.InvalidateForConversation | internal/adapter/db/postgres/aiassist/aiassist.go:143-161 | marks exactly the conversation's unmarked rows |
| SummaryCache.SaveKeepsAtMostOneExactly | internal/aiassist/summary.go:18-22 | a save keeps "at most one" exactly when it follows a miss |
| SummaryCache.NeverTwo | internal/aiassist/port.go:26-55 | over any run in which every save follows a miss at its own instant, whatever the clock does, no instant from the last operation on serves two summaries of a conversation |
| SummaryCache.MissLasts | internal/aiassist/port.go:26-55 | a miss stays a miss as time passes |
| SummaryCache.InvalidationForcesMisses | internal/aiassist/port.go:26-55 | after an invalidation every lookup misses until the next save |
| SummaryCache.OthersUntouched | internal/adapter/db/postgres/aiassist/aiassist.go:77-82 | other conversations keep their rows |
| SummaryCache.OverlapOnlyAtExpiry | internal/aiassist/summary.go:110-121 | by the domain's notion a row and its successor overlap at one instant at most |
| OpenRouter.DeadlineIsTheEarlier | adapters/openrouter/client.go:490-505 | the call's deadline is the earlier of the two, iff not in the saturated corner |
| OpenRouter.DeadlineCornerExample | adapters/openrouter/client.go:490-505 | the corner: the larger deadline wins |
| OpenRouter.RetryAfterWraps | adapters/openrouter/client.go:393-410 | the header is honoured as written iff it is at most 9223372036 seconds |
| OpenRouter.RetryAfterWrapExample | adapters/openrouter/client.go:393-410 | 18446744074 seconds become 290 milliseconds |
| OpenRouter.WaitBeforeRetry | adapters/openrouter/client.go:361-388 | sleeps the whole pause or wakes with the context over; never past the deadline |
| OpenRouter.RetryLoop | adapters/openrouter/client.go:247-302 | for every world: paced sends, one observation named after the result, and a result its last send explains |
| OpenRouter.Complete | adapters/openrouter/client.go:213-302 | the same for the whole call, with the blank-prompt and marshal exits that send and observe nothing |
| OpenRouter.FinishesInTime | adapters/openrouter/client.go:490-505 | call and sleeps end by the caller's deadline, the caller's cancellation and start + timeout |
| OpenRouter.CompletionIsTheLastReply | adapters/openrouter/client.go:325-339 | a completion iff the last response is a 200 whose first choice is non-empty, with its text and counts; any other 200 is an invalid response; tokens are counted then only, none below zero |
| OpenRouter.ErrorsMeanWhatTheySay | adapters/openrouter/client.go:247-355 | each error class iff the last reply, the number of sends and the context say so: below 500 and neither 200 nor 429, four sends ending in 429 or 5xx, a final network error, deadline before cancellation or after it |
| OpenRouter.ObservedAs | adapters/openrouter/client.go:247-302 | the one metric label of each result |
| OpenRouter.PausesAreKept | adapters/openrouter/client.go:361-410 | every send but the last failed with 429, 5xx or a transient error, and the next came exactly max(250 ms, 500 ms or 1 s, what the server asked for) later |
| OpenRouter.AttemptsLast | adapters/openrouter/client.go:247-302 | an attempt lasts as long as the world takes or until the context ends, and the first starts at once |
| OpenRouter.TimeoutIs | adapters/openrouter/client.go:490-505 | the configured timeout, or eight seconds |
| SessionEvents.PendingCodeIsLastWord | cmd/server/wa_session_wire.go:426-491 | a tenant has a code exactly if its last pairing event offers one, and it is that one |
| SessionEvents.PairingSpelledOut | cmd/server/wa_session_wire.go:465-485 | the last event of a tenant settles its code: a non-empty code is pending, "connected" and "banned" leave none, anything else leaves what was |
| SessionEvents.AuditsSpelledOut | cmd/server/wa_session_wire.go:363-413 | of any stream the audit tee writes one row per ban and per disconnect, with the event's own tenant, statuses and reason, and none else |
| SessionEvents.CountsSpelledOut | cmd/server/wa_session_wire.go:308-345 | the metric tee counts each status event once, under the status it leads to |
| SessionEvents.MessagesSpelledOut | cmd/server/wa_session_wire.go:447-462 | the pump hands on one message per inbound event, every field the event's own |
| SessionEvents.QrCache.Put | internal/wasession/qrcache.go:62-69 | stores a non-empty code, ignores an empty one, touches no other tenant |
| SessionEvents.QrCache.Get | internal/wasession/qrcache.go:74-86 | undisturbed: serves the code exactly if present and not expired, and drops an expired one |
| QrCacheSteps.LiveCodeLostExactly | internal/wasession/qrcache.go:74-86 | read, expiry test and drop as separate steps: the drop loses a live code iff that code was stored between the read and the drop and not touched since |
| QrCacheSteps.FreshCodeIsLost | internal/wasession/qrcache.go:74-94 | a run that loses a live code, to a reader whose own code was live when it read it |
| QrCacheSteps.GetAlone | internal/wasession/qrcache.go:74-86 | a reader nobody disturbs drops the code iff it has expired, and changes nothing else |
| QrCacheSteps.WritersNeverWait | internal/wasession/qrcache.go:62-94 | the pump's writes are always possible and do what they say |
| SessionEvents.QrCache.Clear | internal/wasession/qrcache.go:90-94 | removes the tenant's code only |
| SessionEvents.Pump | cmd/server/wa_session_wire.go:426-491 | messages handed over and codes held are functions of the events alone |
| SessionPipeline.StepKeepsInv | cmd/server/wa_session_wire.go:308-400 | every goroutine step of a chain of any length keeps source = delivered + in transit + unread |
| SessionPipeline.DeliveredInOrder | cmd/server/wa_session_wire.go:308-400 | the pump has a prefix of the source, and at most two events per tee are in transit |
| SessionPipeline.SourceIsEmitted | cmd/server/wa_session_wire.go:308-400 | over every run and chain the source is exactly what was emitted, in order |
| SessionPipeline.CancelledExactly | cmd/server/wa_session_wire.go:308-400 | emitting and cancelling are always possible, and only cancelling cancels |
| SessionPipeline.NoFailureNoWarning | cmd/server/wa_session_wire.go:363-400 | warnings come from failed audit writes only |
| SessionPipeline.ReportedBeforeDelivery | cmd/server/wa_session_wire.go:308-413 | whatever the pump received, tee k of the chain had reported as its role demands, in source order |
| SessionPipeline.CountedAndAuditedFirst | cmd/server/wa_session_wire.go:207-208 | in the production chain: counted by the metric tee and, where due, audited before delivery |
| SessionPipeline.EndsAreAudited | cmd/server/wa_session_wire.go:363-413 | in production, over every run: each ban and disconnect that reached the pump has by then exactly one audit row of its own, in stream order, no other event has one, and each status event was counted once |
| SessionPipeline.InboundIsHandedOn | cmd/server/wa_session_wire.go:447-462 | over every run and chain: one message per inbound event that reached the pump, in order |
| SessionPipeline.CodeIsSettled | cmd/server/wa_session_wire.go:465-485 | over every run and chain: the tenant's last event at the pump settles its pending code |
| SessionPipeline.WarnedExactly | cmd/server/wa_session_wire.go:363-400 | a failed audit write warns once, iff there was something to audit |
| SessionPipeline.TeesAreTransparent | cmd/server/wa_session_wire.go:207-208 | chains with and without tees deliver the same stream up to events in transit |
| SessionPipeline.AuditFailuresAreInvisible | cmd/server/wa_session_wire.go:363-400 | failed audit writes change nothing but the warning count |
| SessionPipeline.MoveLowersRank | cmd/server/wa_session_wire.go:308-400 | each goroutine move brings some event one move closer to the pump |
| SessionPipeline.SomeoneCanMove | cmd/server/wa_session_wire.go:308-400 | before shutdown an undelivered event means some goroutine can move |
| SessionPipeline.EverythingArrives | cmd/server/wa_session_wire.go:308-400 | so the goroutines' own runs are bounded and end with everything delivered |
| SessionPipeline.ShutdownCompletes | cmd/server/wa_session_wire.go:308-400 | after cancellation, whichever way the selects go, the goroutines take a bounded number of steps and end with every relay exited and the pump stopped |
| PolicyAudit.NamesDecode | internal/aipolicy/audit.go:77-77 | field names decode uniquely and never clash with columns or lifecycle markers |
| PolicyAudit.DiffSlotsExact | internal/aipolicy/audit.go:354-390 | the diff lists exactly the differing fields, each once |
| PolicyAudit.DiffRebuilds | internal/aipolicy/audit.go:354-390 | applying the diff to the old policy gives the new one, on the audited projection |
| PolicyAudit.DiffIsExact | internal/aipolicy/audit.go:354-390 | it is empty iff the projections agree, and every entry really changes its field |
| PolicyAudit.DiffCutShort | internal/aipolicy/audit.go:354-390 | no proper prefix of the diff rebuilds the new policy |
| PolicyAudit.DiffReverses | internal/aipolicy/audit.go:354-390 | swapping the policies swaps old and new, in the same order |
| PolicyAudit.DiffEndsWithFlips | internal/aipolicy/audit.go:395-442 | it ends with one row per name in exactly one of the two lists, ascending |
| PolicyAudit.DiffSpelledOut | internal/aipolicy/audit.go:354-442 | the diff is the rows of those of "model", "prompt_version", "tone", "language", "ai_enabled", "anonymize", "opt_in" that differ, in that order with both values, then one "field_opt_in." row per name in exactly one list, ascending |
| PolicyAudit.DiffListsExactly | internal/aipolicy/audit.go:354-442 | each of these rows is in the diff iff that field of the policies differs |
| PolicyAudit.NothingToLogExactly | internal/aipolicy/audit.go:354-442 | the diff is empty iff the seven fields and the set of opted-in names are equal |
| PolicyAudit.CreationSpelledOut | internal/aipolicy/audit.go:355-361 | a new policy is logged as one "__created__" row with every field of it |
| PolicyAudit.ProjectionSpelledOut | internal/aipolicy/audit.go:444-465 | what a reader of the log knows of a policy is each column and which names are opted in |
| AuditMerge.RowsTellExactly | internal/aipolicy/audit.go:233-342 | any number of calls, their rows in any order: replaying them gives a target iff the last creation or deletion fits it and the last row on each slot since carries its value |
| AuditMerge.UpsertsTellExactly | internal/aipolicy/audit.go:305-342 | two upserts, the second reading the old or the first one's row, rows merged in any order: the log is right iff on every slot the first changed they agree or the second one's row comes last |
| AuditMerge.InWriteOrder | internal/aipolicy/audit.go:305-342 | rows in the order of the writes: iff every slot the first changed is agreed on or changed by the second too; always if the second read the first one's row |
| AuditMerge.AgainstWriteOrder | internal/aipolicy/audit.go:305-342 | rows against that order: iff they agree on every slot the first changed |
| AuditMerge.SafeExactlyIfSame | internal/aipolicy/audit.go:305-342 | two upserts that read the same row: right whichever writes first and however the rows are merged, iff they write the same audited projection |
| AuditMerge.MixedTellsExactly | internal/aipolicy/audit.go:233-342 | an upsert and a delete, rows merged in any order: iff the last creation or deletion is of the kind that wrote last |
| AuditMerge.MixedBothReadSame | internal/aipolicy/audit.go:233-342 | if both read the same row: iff there was one and the delete wrote last, or none and the upsert did, whatever the order of the rows |
| ConcurrentRecords.TruthfulScopeByScope | internal/aipolicy/audit.go:305-342 | the log is truthful iff it is so on every scope |
| ConcurrentRecords.ApartIsTruthful | internal/aipolicy/audit.go:233-342 | upserts and deletes whose spans on a scope never overlap keep its log truthful, over any run of steps |
| RecordsAlone.CallAlone | internal/aipolicy/audit.go:233-342 | from any state a call can begin, and its steps uninterrupted, with any faults, leave the store, log and answer of the sequential operation |
| ConcurrentRecords.TruthfulExactly | internal/aipolicy/audit.go:233-342 | any number of interleaved upserts and deletes with any faults: at every point the log is right on a scope iff its rows end with the last write there |
| ConcurrentRecords.TwoUpsertsExactly | internal/aipolicy/audit.go:305-342 | two upserts in any interleaving of read, write and record steps: no error, and the log is right iff every slot is harmless for the order of its rows |
| ConcurrentRecords.UpsertAndDeleteExactly | internal/aipolicy/audit.go:233-342 | an upsert and a delete in any interleaving: no error, and the log is right iff its last creation or deletion is of the kind that wrote last; the closed form if both read the same row |
| ConcurrentRecords.DifferentColumnsDrift | internal/aipolicy/audit.go:305-342 | a run: two edits of different columns, logged in order, no error, wrong log |
| ConcurrentRecords.EditOutlivesDelete | internal/aipolicy/audit.go:233-342 | a run: a delete and an edit that both read the row, both logged, no error, the store has a policy and the log tells of none |
| ConcurrentRecords.DeleteRaces | internal/aipolicy/audit.go:251-268 | a run: a delete that found no row removes one created meanwhile and logs nothing |
| RecordingRepository.DiffStructuredFields | internal/aipolicy/audit.go:395-442 | the loop over two sets and a sorted key list computes exactly those rows |
| RecordingRepository.DiffPolicies | internal/aipolicy/audit.go:354-390 | the seven comparisons and the flips compute the diff |
| RecordingRepository.Repository.Upsert | internal/aipolicy/audit.go:305-342 | new store, log and error for every fault, errors after the fact included |
| RecordingRepository.Repository.Delete | internal/aipolicy/audit.go:233-281 | the same for a delete, which logs nothing when there was no row |
| RecordingRepository.RefusedExactly | internal/aipolicy/audit.go:233-318 | which input is refused with which error, in the order each operation checks |
| RecordingRepository.SmoothUpsert | internal/aipolicy/audit.go:305-342 | an upsert to which nothing happens stores the policy and logs its diff, stamped with scope, actor and time |
| RecordingRepository.SmoothDelete | internal/aipolicy/audit.go:233-281 | a delete to which nothing happens removes the policy, says whether there was one, and logs every field of it as "__deleted__" |
| RecordingRepository.TruthfulUnlessLossy | internal/aipolicy/audit.go:233-342 | a call keeps replay(log) = store iff it is not lossy: its write took effect and some due row did not |
| RecordingRepository.LossIsAnnounced | internal/aipolicy/audit.go:291-297 | a lossy call returns a storage or Record error; any other error changes nothing |
| RecordingRepository.LogTellsState | internal/aipolicy/audit.go:233-342 | over any sequential run without a lossy call, replaying the log from empty gives the stored policies |
| RecordingRepository.LogTellsFields | internal/aipolicy/audit.go:233-342 | so over such a run the log tells of each scope whether it has a policy, and each of its audited fields |
| RecordingRepository.FirstLossIsFirstLie | internal/aipolicy/audit.go:233-342 | the first lossy call is exactly where log and store part |
| RecordingRepository.LiesAreAnnounced | internal/aipolicy/audit.go:233-342 | if no call returned a storage or Record error, the log tells the state |
| RecordingRepository.RetryingHealsNothing | internal/aipolicy/audit.go:291-297 | repeating a lossy upsert changes neither store nor log |
| Bootstrap.Guard.MarkPending | cmd/server/inbox_wire_llmcustomer.go:576-587 | marks the tenant; true exactly for the first to ask |
| Bootstrap.Guard.ReleasePending | cmd/server/inbox_wire_llmcustomer.go:593-600 | unmarks that tenant only |
| Bootstrap.StepKeepsInv | cmd/server/inbox_wire_llmcustomer.go:623-665 | every interleaved step keeps marks and holders in one-to-one correspondence |
| Bootstrap.MarkedExactlyWhenHeld | cmd/server/inbox_wire_llmcustomer.go:555-600 | a tenant is marked iff one call is bootstrapping it, once did, or panicked doing so; never two such calls |
| Bootstrap.FailedTenantIsClaimable | cmd/server/inbox_wire_llmcustomer.go:593-600 | a call becomes the owner iff no attempt is under way, succeeded or panicked |
| Bootstrap.EveryCallListsOnce | cmd/server/inbox_wire_llmcustomer.go:555-570 | every call that does not panic lists exactly once, and none is blocked |
| Bootstrap.ShowsItsPast | cmd/server/inbox_wire_llmcustomer.go:555-600 | over every run a call has won, is releasing, returned or panicked iff the matching steps of its own happened |
| Bootstrap.ListsAfterBootstrap | cmd/server/inbox_wire_llmcustomer.go:555-600 | a call goes through the set first, and lists only after it found its tenant marked (or names none), succeeded, or gave the mark back |
| Bootstrap.LastAttemptIsFinal | cmd/server/inbox_wire_llmcustomer.go:555-600 | after a success or a panic no other call ever bootstraps that tenant |
| Limiter.TokenBucketLimiter.Allow | cmd/aipanel-e2e-fixture/main.go:359-374 | admits iff the id's time has come; a denial changes nothing and names at least a second |
| Limiter.TokenBucketLimiter.Reset | cmd/aipanel-e2e-fixture/main.go:351-355 | forgets every id |
| Limiter.BookIsLastAdmission | cmd/aipanel-e2e-fixture/main.go:359-374 | the map holds last admission + cooldown of each id and nothing else |
| Limiter.AdmissionsAreSpaced | cmd/aipanel-e2e-fixture/main.go:359-374 | admissions of one id are at least a cooldown apart |
| Limiter.WindowAdmitsAtMost | cmd/aipanel-e2e-fixture/main.go:338-374 | a window of k cooldowns admits at most k |
| Limiter.WaitingAsToldSuffices | cmd/aipanel-e2e-fixture/main.go:359-374 | waiting the returned time suffices iff the true wait fits a Duration |
| Limiter.SteadyClockKeepsWaitShort | cmd/aipanel-e2e-fixture/main.go:359-374 | it always fits under a non-decreasing clock |
| Limiter.SameIdExactly | cmd/aipanel-e2e-fixture/main.go:359-374 | exactly which pairs share a concatenated id |
| Limiter.CollidingPairs | cmd/aipanel-e2e-fixture/main.go:359-374 | one pair's admission denies another pair |
| Limiter.RefinesPerPair | cmd/aipanel-e2e-fixture/main.go:338-374 | for pipe-free buckets the one map refines independent limiters per pair, over any run |
| Limiter.AdmittedPerPair | cmd/aipanel-e2e-fixture/main.go:359-374 | so each request is admitted iff its own pair allows it |
| Consent.Service.RecordConsent | internal/aipolicy/consent_service.go:94-136 | new table and error for every fault, a write that lands behind an error included; other scopes untouched; nil means the row says what was asked, and any other error leaves the table alone |
| Consent.RecordingAgainChangesNothing | internal/aipolicy/consent_service.go:80-87 | re-recording leaves the whole row alone, actor and time included |
| Consent.StepKeepsInv | internal/aipolicy/consent_service.go:94-136 | reads and writes of concurrent calls in any order keep rows and calls in effect consistent |
| Consent.ConsentIsLastRecord | internal/aipolicy/consent_service.go:48-77 | consent for versions (a, p) iff the last call that took effect on the scope recorded (a, p); that call returned nil unless its write landed behind an error |
| Consent.NilMeansInEffect | internal/aipolicy/consent_service.go:94-136 | a call returned nil iff it took effect and was acknowledged, and only a well-formed call can |
| Consent.RowIsTheLastWriters | internal/aipolicy/consent_service.go:94-136 | the row has the actor, digest, versions and time of the last writer; a call that did not write agreed with the writer before it |
| Consent.WritesAreStores | internal/aipolicy/consent_service.go:94-136 | each write on record is a store step of that call that took effect, at that time |
| Consent.RecordedSpelledOut | internal/aipolicy/consent_service.go:94-136 | what an undisturbed call leaves and returns, input error by input error and fault by fault |
| Consent.InputErrorSpelledOut | internal/aipolicy/consent_service.go:48-136 | nil tenant, scope type other than "tenant", "team", "channel", then blank id and blank versions, in that order |
| Consent.BadInputIsRefused | internal/aipolicy/consent_service.go:48-136 | in every run a bad input has returned just that error, from both operations |
| Consent.OtherScopesUntouched | internal/aipolicy/consent_service.go:94-136 | no step touches another scope |
| Consent.AloneIsRecorded | internal/aipolicy/consent_service.go:94-136 | an uninterrupted call does what the sequential operation says |
| Backfill.Store.UpdateDisplayName | internal/adapter/db/postgres/contactbackfill/store.go:113-131 | compare-and-set on the external id; a failing update may have landed |
| Backfill.RunWith | cmd/backfill-contact-names/main.go:262-320 | the loop's counters and names are the tally and the play of the rounds that count |
| Backfill.CountersCount | cmd/backfill-contact-names/main.go:249-258 | each counter is the number of rounds that ended that way |
| Backfill.FetchSpelledOut | cmd/backfill-contact-names/main.go:262-300 | "messenger" and "instagram" are asked through their own fetcher, no other channel has one |
| Backfill.OutcomeSpelledOut | cmd/backfill-contact-names/main.go:262-320 | how a round ends, each outcome iff: fetcher, reply, apply flag, the update's fate and the name in the store |
| Backfill.MatchingSpelledOut | cmd/backfill-contact-names/main.go:262-274 | the rounds considered are those of the wanted tenant, or all, in order |
| Backfill.CountersAddUp | cmd/backfill-contact-names/main.go:249-258 | scanned = resolved + two skips, resolved = applied + would-apply + changed + errors |
| Backfill.ScannedIsCapped | cmd/backfill-contact-names/main.go:262-274 | scanned is the tenant's candidate count capped by a positive limit |
| Backfill.DryRunWritesNothing | cmd/backfill-contact-names/main.go:12-15 | without apply the names are those the operators leave |
| Backfill.OnlyRawNamesAreReplaced | cmd/backfill-contact-names/main.go:16-18 | a round replaces only its candidate's name, still the external id then, by the non-blank fetched one |
| Backfill.RenamesSurvive | cmd/backfill-contact-names/main.go:16-18 | an operator's rename is never clobbered |
| Backfill.RawNamesAreFilled | cmd/backfill-contact-names/main.go:262-320 | a still-raw name with a usable reply is filled iff applying and the update takes effect, acknowledged or not |
| ScanGate.StepKeepsInv | cmd/mediascan-worker/wire.go:116-125 | every step of every delivery keeps tokens equal to the deliveries that hold one |
| ScanGate.TokensAreHeld | cmd/mediascan-worker/wire.go:116-125 | running <= tokens <= capacity, with equality exactly when no goroutine is past its handler with its token |
| ScanGate.HandledOnce | cmd/mediascan-worker/wire.go:116-125 | each delivery's handler is called once, from its token on |
| ScanGate.GivingBackNeverBlocks | cmd/mediascan-worker/wire.go:116-125 | the token goes back after success, error and panic alike, without blocking |
| ScanGate.StepsMakeProgress | cmd/mediascan-worker/wire.go:116-125 | each step other than an arrival brings the work left down by one |
| ScanGate.NeverStuck | cmd/mediascan-worker/wire.go:116-125 | with work left some step is possible iff the capacity is positive |
| ScanGate.Gate.Send | cmd/mediascan-worker/wire.go:121-121 | the send takes exactly the acquire step of the gate |
| ScanGate.Gate.Receive | cmd/mediascan-worker/wire.go:122-122 | the deferred receive takes exactly the give-back step |
| ScanGate.Gate.Callback | cmd/mediascan-worker/wire.go:120-124 | a delivery nobody interrupts, from its arrival on, keeps the gate's invariant, ends as its handler did, handled once, and leaves tokens and every other delivery as they were |
| MarkerKey.AlphabetsAgree | cmd/server/campaigns_public_wire.go:284-289 | digits read back, and the two alphabets never give one character two meanings |
| MarkerKey.AlphabetsAreInOrder | cmd/server/campaigns_public_wire.go:284-289 | the digits are the tables of RFC 4648 |
| MarkerKey.TestVectors | cmd/server/campaigns_public_wire.go:284-289 | test vectors of section 10 of RFC 4648 |
| MarkerKey.VariantVectors | cmd/server/campaigns_public_wire.go:284-289 | the URL alphabet and the unpadded form on an example |
| MarkerKey.LineBreaksAreSkipped | cmd/server/campaigns_public_wire.go:284-291 | a line break anywhere changes nothing, and nothing else is skipped |
| MarkerKey.DecodeEncode | cmd/server/campaigns_public_wire.go:284-291 | decoding undoes encoding for every byte string and every variant |
| MarkerKey.VariantsAgree | cmd/server/campaigns_public_wire.go:284-291 | variants that accept the same text read the same bytes |
| MarkerKey.ReadKeyExactly | cmd/server/campaigns_public_wire.go:279-295 | a key is read iff some variant decodes the trimmed text to it and it has 32 bytes: the order tried is invisible |
| MarkerKey.EncodedKeyIsRead | cmd/server/campaigns_public_wire.go:279-295 | every key of at least 32 bytes is read back from each of its four encodings |
| TenantAllowlist.Parse | cmd/server/wa_session_wire.go:551-573 | the distinct valid ids, in order of first occurrence |
| Text.TrimSpaceIs | cmd/server/wa_session_wire.go:551-573 | trimming removes all white space at both ends and nothing else |
| Text.BlankIs | cmd/backfill-contact-names/main.go:262-300 | a text is blank iff it is white space throughout |
| Text.SpacesAre | cmd/server/wa_session_wire.go:551-573 | the white space of Unicode, by code point |
| Text.JoinSplit | cmd/server/wa_session_wire.go:551-573 | splitting loses nothing: joined, the parts are the text again |
| TenantAllowlist.OnlyOneList | cmd/server/wa_session_wire.go:551-573 | there is only one such list |
| TenantAllowlist.PrintedListIsReadBack | cmd/server/wa_session_wire.go:551-573 | any list without repeats, printed with commas, is read back |
| TenantAllowlist.ParsingAgainChangesNothing | cmd/server/wa_session_wire.go:551-573 | printing what was parsed and parsing again gives the same list |

## Left out

- Assembly in `cmd/server/*_wire.go`, environment parsing, routes, templates, health checks: no deep property.
- `providerRoutingOutbound.SendMessage` and `internal/aiassist/estimator.go`: they would only add easy members.
- SHA-256, UUID parsing and printing, HTTP dates, TLS and the classification of transport errors: parameters.
- Wallets of several tenants at once: the wallet and the saga are those of one tenant (one wallet row per tenant).
  Commit and Release are handed reservations that exist; forged handles are not modelled.
- The depleted-balance publisher, the courtesy grant and the orphan reconciler of the wallet; of the master grant,
  marking it consumed and the free-period kind.
- Prompt assembly, the consent gate and the rate limiter inside Summarize: whether an attempt gets past them is one
  flag; consent and limiting have modules of their own.
- Expiry inside the QR cache as seen by the pump: `PendingCodeIsLastWord` ignores it, `QrCache.Get` models it.
- Real time in the retry loop: time passes only while the client is blocked, the end of a context is seen at once,
  and an attempt returns no later than its context ends.
- Row order and paging of the audit log reader; the audit event's free-form context.
- Widths: int64 is written out for the wallet balance, durations, Retry-After and token sums; counters, versions and
  string lengths are unbounded, and a character counts as one byte in key lengths.
- Closed forms for three or more overlapping calls on one scope, or for a failing call among two: `TruthfulExactly` is
  exact for all of them, in terms of the rows that reached the log.
