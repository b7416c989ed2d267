# Ayni coordinator, provider stream and security reference: a verified model

This project models the stateful and arithmetic cores of the Ayni compute marketplace — the Go
coordinator, the token stream of the Rust provider node and the Python security reference
package — and proves what they promise. `dafny verify dfyconfig.toml` checks everything.

| module | what it models |
|---|---|
| `Roster` | qualification of candidate models and the pruned backtracking search for the ten-seat Council |
| `Frames`, `Jobs`, `Relay`, `Stream` | the encrypted result stream: numbering on the provider, routing by job and provider, the relay's event loop, and the whole system under an adversarial network |
| `Scheduler`, `Batch`, `Workload` | eligibility and ranking, the concurrent worker pool with its least-loaded chooser, chunked execution and settlement |
| `RateLimit` | the per-key token bucket |
| `Pricing` | job and workload prices, roundings included |
| `HashChain` | the audit log and the published decision chain |
| `Ledger`, `Payout`, `PayoutRuns` | the reference ledger, the payout run over the earning rows, and histories of overlapping runs |
| `Council` | the deterministic review gate |
| `QuoteStore` | quotes: stored, looked up, accepted once, settled once |
| `EventRing` | the ring of operational events and its early-exit query |
| `Der` | the hand-written DER element scanner against ITU-T X.690 |
| `Common`, `Sorting`, `Strings` | options, runs and counts, what a library sort promises, the order on strings |

Objects whose methods change fields are classes with those fields (`Jobs.Manager`,
`Batch.Chooser`, `RateLimit.Limiter`, `HashChain.AuditLog`, `Ledger.ReferenceLedger`,
`Payout.Store`, `Workload.Summary`, `QuoteStore.Store`, `EventRing.Ring`, `Frames.TokenSealer`);
loops of the source are loops here. Each such method is proved against a function or predicate
on values, and the theorems are about those. Concurrency is modelled as a state machine whose
events are the source's critical sections, taken in any order: `Stream`, `Batch`, `PayoutRuns`
and `QuoteStore` prove their safety properties over every sequence of events.

What the code does where a shorter description would go wrong:

- A provider handles every job request frame it receives, repeated or not, and each time numbers
  its tokens from zero under the same key, with a 32-bit counter that saturates. A job's output is
  one generation's on every run precisely when the request is handled once and the caller sets a
  ceiling between 1 and 2^32 - 1, or a single token is asked for (`Stream.ExactIffHandledOnce`);
  `Stream.TwoRunsMix` and `Stream.SaturationConfusesTokens` are runs in which it is not.
- The reference ledger compares a share with the gross its caller states, not with what the job
  was charged, and allows several devices per job, although its own invariant check asks that total
  earnings stay within total charges. `Ledger.CoveredRunsAreThoseThatFit` gives the exact condition
  for the totals and `Ledger.SolventRunsAreThoseThatFit` the one for every single job, which is
  strictly stronger (`Ledger.TotalsCanHideOneJob`); `Ledger.DisciplinedRunsFit` is a discipline that
  meets both, `Ledger.TwoDevicesCanOutearnTheCharge` a run that meets neither. A zero charge to an
  account that was never funded marks the job and then raises; the model keeps that outcome
  (`Crashed`).
- A settlement claim joins job and device with a NUL character; `Ledger.ClaimsCollideIff` says
  exactly which claims are taken for one another.
- The scheduler may serve an item above the quoted tier, and a price multiplier that is not positive
  counts as one in the quote while earnings fall back on the configured one.
  `Pricing.WithinQuoteIffTermsCovered` says that accruals stay within every quote exactly when no
  item can be served at dearer terms, `Pricing.WithinQuoteIffTiersCovered` what that means for the
  tiers, and `Workload.RankSuffices` when the fallback does no harm.
- A payout marks every row accrued at settle time as paid, not the rows its run read, and a
  failed settle after a successful transfer is ignored. `PayoutRuns.ConservedIffClean` says
  exactly when money is conserved nevertheless; `PayoutRuns.EarningInBetweenIsLost` and
  `PayoutRuns.LostSettleIsPaidTwice` are histories in which it is not, and `PayoutRuns.RunIsHistory`
  says which history an uninterrupted run is.
- Event numbers are drawn before the ring's lock, so a poll that stops at the first old number can
  miss events. Limits go up to 1000 while the ring holds 2000: `EventRing.RecentIsExactIff` says
  exactly when every unfiltered poll is right (the last 1000 events are no lower than any before
  them), `EventRing.ExactIffDescentsAreOld` says it for any filters, which also have to let through
  enough later events to fill the limit, and `EventRing.SwappedPushes` reaches a state in which a
  poll is wrong.
- The limiter reads its clock before its lock. The bounds on what a key is admitted and the
  exactness of admission hold for any readings; only a reading outside of the window that two calls
  span loosens the bound between these two (`RateLimit.SpanBound`, `RateLimit.WindowBound`).
- `batch.Run` waits for its workers without a limit. `Batch.FourStepsAnItem`, `Batch.StuckIffDrained`
  and `Batch.EveryPoolCanDrain` say that the wait ends under every interleaving, as long as every
  execution answers.
- Redundancy raises a quote, but each item is executed once; the bound of accruals by the quote
  holds for any redundancy of at least 1.
- Provider diversity of a roster is tested on the candidate pool only; five providers in every
  selected roster follow from the cap of two.
- The scanner keeps tag numbers in 64 bits: wider tags are read modulo 2^64
  (`Der.StopsRightIffNoAliasBefore`).

## Model

| member | source | states |
|---|---|---|
| Roster.SelectRoster | security/ayni_security/qualification.py:86-140 | the whole selection, in the order the source tests things: each refusal with its condition, `NoRoster` exactly when no assignment meets the hard constraints, otherwise the first admissible assignment in per-seat preference order; the roster check it ends with always passes |
| Roster.Search | security/ayni_security/qualification.py:108-131 | from any partly filled roster the pruned backtracking search finds the first admissible completion in dictionary order of preferences, and nothing exactly when there is none |
| Roster.SearchRoster | security/ayni_security/qualification.py:133-135 | the same from the empty roster |
| Roster.ReuseIsHopeless | security/ayni_security/qualification.py:119-120 | skipping a used model loses no admissible completion |
| Roster.FullProviderIsHopeless | security/ayni_security/qualification.py:121-122 | skipping a provider at its cap loses no admissible completion |
| Roster.TooFewOpenIsHopeless | security/ayni_security/qualification.py:123-125 | skipping when the open-weight minimum is out of reach loses no admissible completion |
| Roster.SkippedIsHopeless | security/ayni_security/qualification.py:119-125 | the three tests as the search makes them, on its accumulators, discard only hopeless candidates |
| Roster.EnteredKeepsTrack | security/ayni_security/qualification.py:123-128 | a candidate that passes the tests keeps models unique and the cap respected, and the accumulators passed down describe the longer roster |
| Roster.FirstBranchIsFirst | security/ayni_security/qualification.py:118-131 | the first branch that succeeds yields the most preferred completion overall |
| Roster.FirstCompletionIsUnique | security/ayni_security/qualification.py:108-131 | there is only one first completion, so the search's answer is determined |
| Roster.QualifiedCandidates | security/ayni_security/qualification.py:67-83 | a repeated model id is refused; otherwise the pool is the qualified candidates by falling baseline score, provider, model id |
| Roster.RankingsAreByScore | security/ayni_security/qualification.py:102-106 | every seat's list holds exactly the qualified candidates, by falling role score, ties by provider and then model id |
| Roster.ListsFollowWeights | security/ayni_security/qualification.py:39-48 | in every seat's list an earlier candidate is worth no less, where its score for the seat, or its security if it has none, weighs 52 parts, security 14, calibration and reliability 7 each |
| Roster.HigherRoleScorePrecedes | security/ayni_security/qualification.py:47-48 | of two qualified candidates alike in the other scores the one with the strictly higher score for the seat comes first |
| Roster.HigherBaselinePrecedes | security/ayni_security/qualification.py:39-48 | at equal scores for the seat the one with the strictly higher baseline comes first |
| Roster.RaisingNeverMovesLater | security/ayni_security/qualification.py:47-48 | raising a candidate's score for a seat never moves it later in that seat's list |
| Roster.ListedIffMinimumsMet | security/ayni_security/qualification.py:77-83 | a seat's list holds exactly the candidates that meet all three minimums |
| Roster.ValidateRoster | security/ayni_security/council.py:67-81 | accepts exactly ten seats filling every role, unique models, named models and providers, at most two seats a provider |
| Roster.TallyProviders | security/ayni_security/council.py:75-79 | the provider tally counts every provider's seats, or finds an unnamed model or provider |
| Roster.AdmissiblePassesValidation | security/ayni_security/qualification.py:136-140 | what the search accepts always passes the Council's own roster check |
| Roster.CapTimesProviders | security/ayni_security/qualification.py:121-122 | seats never exceed cap times distinct providers |
| Roster.SelectedHasFiveProviders | security/ayni_security/qualification.py:97-140 | every selected ten-seat roster has at least five providers, though diversity is tested on the pool only |
| Roster.SelectionMeetsEveryConstraint | security/ayni_security/qualification.py:97-140 | a selected roster seats ten submitted candidates that meet the minimums, of ten different models, at least the minimum number open-weight, and no more than the cap of any provider, counted seat by seat |
| Roster.NoSeatPrefersAnother | security/ayni_security/qualification.py:102-131 | no seat would rather have someone else: a qualified candidate that the rest of the selected team admits in that seat is worth no more there |
| Roster.SelectionIgnoresListing | security/ayni_security/qualification.py:86-140 | the order in which candidates are listed changes neither the roster nor the reason for refusing one |
| Frames.TokenSealer.OnToken | provider-core/provider-lib/src/job.rs:202-227 | the provider queues for its k-th token the frame that seals it under number k, saturating at 2^32-1; a token that does not serialise queues nothing and uses no number |
| Jobs.Manager.Register | coordinator/internal/jobs/jobs.go:39-45 | a fresh open channel bound to one provider; the table stays valid |
| Jobs.Manager.Deliver | coordinator/internal/jobs/jobs.go:49-62 | accepts exactly a known job's frame from its own provider while the 64-place buffer has room, appends it, and never sends on a closed channel |
| Jobs.Manager.CloseUnderLock | coordinator/internal/jobs/jobs.go:65-71 | the first half of Close removes the job; the channel it takes away is open and nobody else's |
| Jobs.Manager.CloseOutsideLock | coordinator/internal/jobs/jobs.go:72-74 | the second half closes a channel no job refers to, keeping the table valid |
| Jobs.Manager.Close | coordinator/internal/jobs/jobs.go:65-75 | both halves together |
| Jobs.OtherJobsAreUntouched | coordinator/internal/jobs/jobs.go:39-75 | whatever is done to one job leaves every other job's assignment and channel as they were |
| Jobs.FramesQueueUp | coordinator/internal/jobs/jobs.go:39-62 | up to 64 frames of its provider wait in a job's channel in the order of their arrival, and the next is turned away |
| Jobs.StrangersAreTurnedAway | coordinator/internal/jobs/jobs.go:49-55 | a frame from another provider, or for an unknown job, is turned away and changes nothing |
| Relay.EventLoop | coordinator/internal/relay/relay.go:141-216 | the event loop's counter, callbacks, cancel frames and result are those of folding its inputs until the job ends |
| Relay.RunningIffAllTokens | coordinator/internal/relay/relay.go:153-188 | a job is still running exactly when every input was the chunk whose turn it was: opening under its key, naming it in frame and plaintext, with the next number, under the ceiling, and empty or accepted by the caller; then all texts have been delivered and nothing cancelled |
| Relay.FirstOtherEndsJob | coordinator/internal/relay/relay.go:149-216 | the first other input ends the job for its own cause: finished by a done frame of this job with a plausible prompt and by nothing else; client gone, deadline, a box that does not open, a wrong chunk and a refusing caller each with one cancel frame of its own reason, every other end with none |
| Relay.RunAppend | coordinator/internal/relay/relay.go:147-216 | one more input advances a running job by one turn and leaves an ended one alone |
| Relay.RunStays | coordinator/internal/relay/relay.go:147-216 | nothing that arrives after the end changes the result |
| Stream.InputKeepsFaithful | coordinator/internal/relay/relay.go:162-188 | an authentic chunk that the relay accepts carries the next number, so it is the token of that number in some run of the job |
| Stream.InputKeepsTally | coordinator/internal/relay/relay.go:176-208 | the relay's own count stays within a positive ceiling and is what a finished job reports |
| Stream.HandleKeeps | provider-core/provider-lib/src/lib.rs:381-404 | handing the request to the provider once more, which starts another run numbered from zero under the same key, keeps the system safe |
| Stream.ArriveKeeps | coordinator/internal/jobs/jobs.go:49-62 | delivery of any frame from anyone keeps the system safe |
| Stream.BeginCloseKeeps | coordinator/internal/jobs/jobs.go:65-71 | taking a job out of the table, at any time, keeps the system safe |
| Stream.EndCloseKeeps | coordinator/internal/jobs/jobs.go:72-75 | closing a channel after it left the table never closes it twice and keeps the system safe |
| Stream.TurnKeeps | coordinator/internal/relay/relay.go:147-216 | one turn of any relay keeps the system safe |
| Stream.EveryRunIsSafe | coordinator/internal/relay/relay.go:107-216 | over every interleaving of starts, deliveries and repeated deliveries of requests, tokens, drops, duplicates, reorderings, foreign frames and closes: no send on a closed channel and no double close, a channel only holds its own provider's events, and every relay has taken one token per number, each from some run under that number |
| Stream.NothingCanPanic | coordinator/internal/jobs/jobs.go:49-75 | in every reachable state no registered job's channel is closed, and every channel on the way to be closed is open, nobody's and on the way once |
| Stream.EveryJobCanBeEnded | coordinator/internal/relay/relay.go:107-155 | in every reachable state the deadline, or the client's leaving, ends a running job with that cause and one cancel frame, and closing then frees its place in the table and puts its channel on the way to be closed, touching no other job |
| Stream.ClosingEndsReaders | coordinator/internal/jobs/jobs.go:72-75 | a channel on the way to be closed can be closed, and a job that has read it empty then ends as having lost its provider |
| Stream.SuccessIsFaithful | coordinator/internal/relay/relay.go:189-208 | a job that succeeds reports N within a positive ceiling and hands the caller the concatenation of N tokens of which the k-th is the k-th token of some run, however often the request was delivered |
| Stream.SuccessOfOneRun | coordinator/internal/relay/relay.go:189-208 | when the request was handled once, that is exactly the concatenation of the first N tokens the provider produced, for N up to 2^32-1 |
| Stream.SkippingEmptyKeepsText | coordinator/internal/relay/relay.go:182-187 | not calling the caller back for empty tokens does not change the text |
| Stream.InOrderLosesNothing | coordinator/internal/relay/relay.go:147-216 | a network that delivers in order delivers every token |
| Stream.EveryTextCanArrive | coordinator/internal/relay/relay.go:189-208 | every text within the ceiling has a run in which the job succeeds with all of it |
| Stream.SaturationConfusesTokens | provider-core/provider-lib/src/job.rs:226 | without a ceiling below 2^32 there is a run in which the saturated number makes the relay take the wrong token |
| Stream.TwoRunsMix | provider-core/provider-lib/src/lib.rs:381-404 | when the request is delivered twice there is a run in which the job succeeds with a text that neither generation produced |
| Stream.ExactIffHandledOnce | coordinator/internal/relay/relay.go:176-181 | output is the beginning of one generation on every run precisely when nothing is handled, or the ceiling is between 1 and 2^32-1 and either the request is handled once or a single token is asked for |
| Stream.ExactIffCeilingFits | coordinator/internal/relay/relay.go:176-181 | with the request handled once: precisely when the caller's ceiling is between 1 and 2^32-1 |
| Scheduler.Gather | coordinator/internal/scheduler/scheduler.go:99-117 | keeps exactly the providers that fit, and the flags say whether anyone serves the model, and whether anyone undrained meets the tier |
| Scheduler.Eligible | coordinator/internal/scheduler/scheduler.go:92-149 | a sorted permutation of exactly the providers that fit, or the reason there are none |
| Scheduler.FittingIsExact | coordinator/internal/scheduler/scheduler.go:99-117 | a provider is kept exactly when it meets model, drain, tier, context and class requirements |
| Scheduler.BetterIsStrictWeak | coordinator/internal/scheduler/scheduler.go:130-147 | the ranking is a strict weak order |
| Scheduler.Pick | coordinator/internal/scheduler/scheduler.go:80-86 | an eligible provider that no other eligible one beats; an error exactly when nobody is eligible |
| Scheduler.UnbeatenIsBest | coordinator/internal/scheduler/scheduler.go:130-147 | the pick has the least load; among those with its load the strongest tier; then the coolest, the most battery, the most free memory |
| Scheduler.PreferencesByName | coordinator/internal/scheduler/scheduler.go:27-69 | at equal load a confidential provider is never passed over for another tier, a device-attested one never for a lower; all else equal neither a cool one for a hotter nor one on the mains for one running down |
| Scheduler.ListedIffMeets | coordinator/internal/scheduler/scheduler.go:99-117 | listed are exactly the registered providers that serve the model, are not draining, and meet tier, context and class |
| Scheduler.DemandsByName | coordinator/internal/scheduler/scheduler.go:27-54 | a demanded tier or class is met by that one or a higher, by name |
| Scheduler.MoreChoiceNeverHurts | coordinator/internal/scheduler/scheduler.go:92-149 | more providers or weaker requirements never turn an answer into a refusal nor make the pick worse |
| Scheduler.HarderLosesNothing | coordinator/internal/scheduler/scheduler.go:103-115 | whoever meets higher demands of tier, context and class meets the lower ones, so the lemma before applies |
| Scheduler.SnapshotOrderIsImmaterial | coordinator/internal/scheduler/scheduler.go:99-149 | the registry's order changes neither the reason for a refusal, nor who is listed, nor the merit of the pick |
| Scheduler.ReasonSaysWhatHelps | coordinator/internal/scheduler/scheduler.go:119-128 | the reason says what would help: without a provider of the model nothing does, with none of the tier only a lower tier does, otherwise dropping the demands of context and class does |
| Batch.Workers | coordinator/internal/batch/batch.go:116-125 | the pool has between one worker and the clamp, never more than items |
| Batch.Chooser.Choose | coordinator/internal/batch/batch.go:136-149 | takes the first candidate that is lightest by (in flight, assigned) and counts it |
| Batch.Chooser.Release | coordinator/internal/batch/batch.go:150-154 | gives one in-flight item back |
| Batch.Choice | coordinator/internal/batch/batch.go:139-145 | no candidate is lighter than the chosen one, and every earlier one is heavier |
| Batch.NextKeepsLoad | coordinator/internal/batch/batch.go:136-212 | every step of any worker keeps the counters equal to the workers between choose and release, and the load bound |
| Batch.NextKeepsItems | coordinator/internal/batch/batch.go:163-174 | every step of any worker keeps each item with one worker at most and each result with its own item |
| Batch.EveryRunIsBalanced | coordinator/internal/batch/batch.go:136-174 | both hold in every reachable state of the pool |
| Batch.NoProviderIsOverloaded | coordinator/internal/batch/batch.go:136-154 | in every reachable state no provider has more than floor((W-1)/k)+1 items in flight and the counters sum to the busy workers |
| Batch.EveryRunIsVouched | coordinator/internal/batch/batch.go:163-212 | in every reachable state no item was executed twice, every execution was given its own item, and every result is the answer of its item's execution or says the item was cancelled unexecuted |
| Batch.EveryItemIsAnsweredOnce | coordinator/internal/batch/batch.go:159-212 | whenever the pool has drained, under any interleaving, every item has a result: the answer of its one execution, which was given that very item, or its cancellation |
| Batch.FourStepsAnItem | coordinator/internal/batch/batch.go:159-212 | every interleaving ends: no run has more than four steps an item that do something |
| Batch.StuckIffDrained | coordinator/internal/batch/batch.go:159-212 | and it ends in one way only: with a worker, nothing more can be done exactly when the pool has drained |
| Batch.EveryPoolCanDrain | coordinator/internal/batch/batch.go:87-125 | from every reachable state a pool of the size the source chooses can go on until it has drained, so waiting for it is never in vain |
| Batch.OneWorkerSharesEvenly | coordinator/internal/batch/batch.go:136-149 | with one worker, items assigned to any two providers differ by at most one |
| Workload.Summarize | coordinator/internal/batch/batch.go:214-235 | the loop computes the items, OK, failed and token totals and per-provider counts described independently of it |
| Workload.CountsAreHandled | coordinator/internal/batch/batch.go:221-234 | the provider counts name exactly the providers that handled an item, each with its number of items |
| Workload.ChunkItems | coordinator/internal/api/workloads.go:494-507 | full chunks, then one remainder that is never empty unless the list is; joined together they are the list |
| Workload.ChunksAreChunking | coordinator/internal/api/workloads.go:494-507 | the same of the recursive form |
| Workload.Summary.Merge | coordinator/internal/api/workloads.go:511-526 | merging in place changes the summary to the merged value and nothing else |
| Workload.Summary.AppendItems | coordinator/internal/api/workloads.go:512-515 | items are appended re-indexed by the offset |
| Workload.Summary.AddProviders | coordinator/internal/api/workloads.go:516-518 | provider counts add up key by key, in any order of the map |
| Workload.MergeAgrees | coordinator/internal/api/workloads.go:511-526 | merging the summary of one more chunk gives the summary of all results so far |
| Workload.BatchAnswersInOrder | coordinator/internal/batch/batch.go:159-174 | whatever the interleaving, a drained batch has as many results as items, result i numbered i |
| Workload.BatchReportsExecutions | coordinator/internal/batch/batch.go:176-212 | whatever the interleaving, the result in an item's place carries the content, both token counts, tier, key, job id and provider of its one execution, or its error code and nothing else; an item never executed has its own error code and no provider |
| Workload.SummaryCountsExecutions | coordinator/internal/batch/batch.go:214-235 | the summary's OK count and token totals are sums over the executions that answered, and its count for a provider the number of executions that provider handled, the one an answer names or else the chosen one |
| Workload.EarningsAreForExecutions | coordinator/internal/api/runs.go:193-203 | the earnings are those of the answered executions and no others: any measure of job, key and amounts adds up to the same over both |
| Workload.RunChunks | coordinator/internal/api/runs.go:169-188 | the chunk loop aborts at the first chunk that cannot be attempted; otherwise it ends with the summary of all results in submission order |
| Workload.Accrue | coordinator/internal/api/runs.go:193-203 | one earning per successful item, in order, under its own job id, priced by the tier it was served at and the tokens used, with the configured multiplier where the one asked for is not positive |
| Workload.ExecuteWorkload | coordinator/internal/api/runs.go:158-229 | on demand or spot, for whatever interleavings the batches of the chunks had: the merged summary is the summary of one list of all results, numbered 0..n-1; its totals, its counts by provider and the earnings are those of the executions the pools made, and of no others; the caller is debited the quoted price once, and not at all when nothing succeeded or a chunk could not run |
| Workload.EarningsAreAccrued | coordinator/internal/api/chat.go:209-224 | the micros credited add up to the accruals the pricing bound speaks of |
| Workload.EarningsStayWithinQuote | coordinator/internal/api/runs.go:193-205 | the earnings of an executed workload, on demand or spot, stay within its quoted compute cost, but for rounding, when no item was served at terms dearer than the quoted ones and tokens stay within the estimate |
| Workload.RankSuffices | coordinator/internal/api/chat.go:209-213 | serving at or below the quoted tier is never dearer when the workload's multiplier is positive, or the configured one is not: the multiplier that earnings fall back on then counts the same |
| Workload.ChunkingIsInvisible | coordinator/internal/api/runs.go:169-188 | chunks answered as their items would be in one big batch merge to exactly that batch's results |
| Workload.FirstChunkIsLargest | coordinator/internal/api/runs.go:169-180 | the reported concurrency is that of the first chunk |
| RateLimit.Limiter.Allow | coordinator/internal/ratelimit/ratelimit.go:32-57 | one call refills, caps, spends or refuses exactly as the bucket value does, and a disabled limiter always admits |
| RateLimit.KeyWindowBound | coordinator/internal/ratelimit/ratelimit.go:32-57 | from any call of a key to any admitted call of it the number admitted is at most burst + rate x elapsed time, even when clock readings are out of order |
| RateLimit.SpanBound | coordinator/internal/ratelimit/ratelimit.go:32-57 | over any stretch of calls a key is admitted at most burst + rate x the time its clock readings span, in whatever order they come |
| RateLimit.WindowBound | coordinator/internal/ratelimit/ratelimit.go:32-57 | so the number admitted between any two calls is at most burst + rate x elapsed time, unless a call of the key between them read a clock outside of theirs |
| RateLimit.OrderedReadsAreWithin | coordinator/internal/ratelimit/ratelimit.go:32-57 | which never happens when readings are in the order of the lock |
| RateLimit.AdmittedIffRoom | coordinator/internal/ratelimit/ratelimit.go:45-53 | a call is admitted precisely when every window of its key ending at it has room, whatever the clock readings: never too many and never too few |
| RateLimit.WaitingAsToldIsEnough | coordinator/internal/ratelimit/ratelimit.go:55-56 | a refused caller that waits as told and is the key's next request is admitted |
| RateLimit.ComingEarlyIsRefused | coordinator/internal/ratelimit/ratelimit.go:55-56 | and one that comes more than a millisecond earlier is refused again |
| RateLimit.AllowanceIsPerMinute | coordinator/internal/ratelimit/ratelimit.go:23-29 | the allowance is the setting itself, and that many more for every minute between the two calls |
| RateLimit.PositiveSettingIsALimit | coordinator/internal/ratelimit/ratelimit.go:23-29 | every positive per-minute setting meets what the bounds assume |
| Pricing.ShareStaysWithinGross | coordinator/internal/pricing/pricing.go:56-79 | with quality at most 1 a provider accrues between nothing and the job's gross |
| Pricing.GrossIsNearest | coordinator/internal/pricing/pricing.go:56-77 | at the lowest tier a job costs its prompt and generated tokens at their scaled rates, to the nearest micro-dollar |
| Pricing.TierMultipliesGross | coordinator/internal/pricing/pricing.go:33-42 | a higher tier costs 1.4 times that, rounded down, or three times |
| Pricing.ShareIsNearest | coordinator/internal/pricing/pricing.go:46-78 | the provider's share is 70 percent of the job's price, 60 at the confidential tier, scaled by quality, to the nearest micro-dollar |
| Pricing.NonPositiveCountsAsOne | coordinator/internal/pricing/pricing.go:63-78 | multipliers that are not positive count as one |
| Pricing.LargerClassCostsNoLess | coordinator/internal/pricing/pricing.go:23-64 | a larger model class never costs less nor pays less, and an unlisted one is priced as a small one |
| Pricing.GeneratingCostsNoLess | coordinator/internal/pricing/pricing.go:23-30 | generated tokens never cost less than as many prompt tokens |
| Pricing.HigherTierCostsNoLess | coordinator/internal/pricing/pricing.go:33-51 | a higher tier never costs less nor pays less |
| Pricing.AccrualAtMost | coordinator/internal/pricing/pricing.go:63-78 | truncation and two half-away roundings lift a job's accrual at most 1.5 micro-USD above its exact share |
| Pricing.AccrualAtLeast | coordinator/internal/pricing/pricing.go:63-78 | and lower it at most 2 micro-USD below |
| Pricing.SharesAddUp | coordinator/internal/pricing/pricing.go:71-72 | exact shares of items add up to the exact share of their token totals |
| Pricing.AccruedWithinOneJob | coordinator/internal/pricing/pricing.go:123-127 | items served at terms no dearer than the quoted ones accrue no more than one job of all their tokens at those, but for rounding |
| Pricing.AccrualsStayWithinQuote | coordinator/internal/pricing/pricing.go:116-152 | all accruals S of a workload whose items were served at terms (tier and multiplier) no dearer than the quoted ones satisfy 2S <= 2 compute + 3n + 4, whatever the redundancy, class and margin |
| Pricing.ServedDearerBreaksBound | coordinator/internal/pricing/pricing.go:33-51 | for every class, whenever an item can be served at dearer terms, one such item can break the bound |
| Pricing.WithinQuoteIffTermsCovered | coordinator/internal/pricing/pricing.go:116-152 | the bound holds for every workload, estimate, redundancy and margin exactly when items cannot be served at terms dearer than the quoted ones |
| Pricing.RankDecides | coordinator/internal/pricing/pricing.go:33-51 | at one multiplier terms are dearer exactly when the tier ranks higher and the scaled rate card charges anything |
| Pricing.WithinQuoteIffTiersCovered | coordinator/internal/pricing/pricing.go:116-152 | quoted and served at one multiplier, the bound holds always exactly when no tier that items can be served at is above the quoted one, or the multiplier scales the whole rate card down to nothing |
| Pricing.MoreWorkNeverCostsLess | coordinator/internal/pricing/pricing.go:116-152 | a larger workload costs no less, in any part of its price |
| Pricing.PriceIsItsParts | coordinator/internal/pricing/pricing.go:105-152 | for every request the total is the larger of the minimum and compute + coordination + failure + margin + payment, where coordination is 15% of compute, failure 8% of it shared by the redundant runs, margin the rate (30% if not positive) times these three, payment 3% of all four, each rounded down |
| Pricing.PriceCoversCompute | coordinator/internal/pricing/pricing.go:116-152 | the caller never pays less than the compute cost nor less than the minimum |
| Pricing.ComputeIsOnePayment | coordinator/internal/pricing/pricing.go:116-127 | the compute cost is what one provider would be paid for the tokens of all redundant runs |
| HashChain.AuditLog.Append | security/ayni_security/audit.py:41-57 | refuses an empty event type; otherwise the log grows by the linked record and still verifies |
| HashChain.AuditLog.Verify | security/ayni_security/audit.py:59-69 | accepts exactly the logs whose every index, link and hash holds |
| HashChain.VerifiesIffBuilt | security/ayni_security/audit.py:41-69 | a log verifies exactly when it is what appending its own entries would have produced |
| HashChain.OneHeadOneLog | security/ayni_security/audit.py:59-69 | two non-empty verifying logs with one head are equal record for record, or comparing them exhibits a hash collision |
| HashChain.CollisionFreeLogs | security/ayni_security/audit.py:59-69 | under a collision-free hash the head fixes the whole log, so edits, insertions, deletions and reorderings show |
| HashChain.SealRecord | security/ayni_security/publication.py:158-161 | refuses a record already sealed; otherwise the hash is that of the body and the seal holds unless the hash is the empty marker |
| HashChain.VerifyPublicChain | security/ayni_security/publication.py:164-170 | accepts exactly the chains whose every link and seal holds |
| HashChain.OneHeadOneChain | security/ayni_security/publication.py:154-170 | two verifying public chains with one head are equal, or a collision is exhibited, though records carry no index |
| HashChain.CollisionFreeChains | security/ayni_security/publication.py:154-170 | under a collision-free hash the head fixes the whole public chain |
| HashChain.PublishingKeepsChain | security/ayni_security/publication.py:158-170 | linking and sealing one more record keeps the chain verifying exactly when its hash is not the empty marker |
| Ledger.ReplayGuard.Consume | security/ayni_security/replay.py:19-26 | a non-empty value is consumed once |
| Ledger.SettlementGuard.Claim | security/ayni_security/replay.py:39-42 | a job and device claim once |
| Ledger.ClaimsCollideIff | security/ayni_security/replay.py:42 | two claims share a key exactly when they are the same claim, or one job id goes on with a NUL after the other and the devices make up the rest |
| Ledger.JobsConfusableIff | security/ayni_security/replay.py:42 | the claims of two jobs can be confused, by some devices, exactly when one id goes on with a NUL after the other |
| Ledger.ClaimsAreDistinct | security/ayni_security/replay.py:39-42 | claims of jobs whose ids do not go on with a NUL after one another are told apart, whatever the devices |
| Ledger.NulFreeClaimsAreDistinct | security/ayni_security/replay.py:39-42 | in particular those of ids without a NUL |
| Ledger.NulConfusesClaims | security/ayni_security/replay.py:42 | such a pair of confused claims |
| Ledger.ReferenceLedger.FundAccount | security/ayni_security/ledger.py:42-51 | whole new state and outcome of funding, once per payment id |
| Ledger.ReferenceLedger.ChargeJob | security/ayni_security/ledger.py:53-64 | whole new state and outcome of a charge, including the crash that leaves an unfunded account's zero charge marked |
| Ledger.ReferenceLedger.AccrueJob | security/ayni_security/ledger.py:66-88 | whole new state and outcome of an accrual |
| Ledger.ReferenceLedger.PayOut | security/ayni_security/ledger.py:90-98 | whole new state and outcome of a payout |
| Ledger.EveryRunConserves | security/ayni_security/ledger.py:110-117 | on every run funded = customer balances + charged, earned = provider balances + paid, no balance is negative and payouts stay within earnings |
| Ledger.AnswersFollowFromHistory | security/ayni_security/ledger.py:42-98 | after any history each answer follows from the operations before it alone: a payment id is credited once, a job charged once and only against the credit of a funded account, a claim accrued once, for a charged job and within the stated gross, and a provider paid any positive amount up to what it is still due |
| Ledger.BalancesFromHistory | security/ayni_security/ledger.py:42-98 | every balance is what was booked to its owner less what was booked from it |
| Ledger.CoveredIffFitsTotal | security/ayni_security/ledger.py:77-84 | an accrual keeps total earnings within total charges exactly when its share fits what is left of all charges |
| Ledger.CoveredRunsAreThoseThatFit | security/ayni_security/ledger.py:114-115 | over whole runs: total earnings stay within total charges throughout exactly when the share of every booked accrual fits what is left |
| Ledger.SolventIffFits | security/ayni_security/ledger.py:77-84 | an accrual keeps every single job's earnings within its charge exactly when its share fits what is left of that charge |
| Ledger.SolventRunsAreThoseThatFit | security/ayni_security/ledger.py:114-115 | a whole run stays solvent job by job exactly when all its accruals fit |
| Ledger.SolventMeansEarnedWithinCharged | security/ayni_security/ledger.py:114-115 | a run whose accruals fit job by job ends with total earnings within total charges |
| Ledger.SolventRunsAreCovered | security/ayni_security/ledger.py:114-115 | job by job is the stronger property: it keeps the totals throughout |
| Ledger.TotalsCanHideOneJob | security/ayni_security/ledger.py:114-115 | strictly stronger: a run whose totals hold throughout while one job earns more than it was charged |
| Ledger.DisciplinedRunsFit | security/ayni_security/ledger.py:77-84 | every run in which each job is accrued by one device with the gross it was charged keeps earned within charged |
| Ledger.TwoDevicesCanOutearnTheCharge | security/ayni_security/ledger.py:77-88 | two devices accruing one job break it: a concrete run |
| Payout.Store.AccruedByProvider | coordinator/internal/store/billing_pg.go:151-171 | reports each named identity with accrued rows once, with its count and sum, largest first |
| Payout.Store.RecordEarning | coordinator/internal/store/postgres.go:190-210 | an earning without a job or identity is refused; any other adds one accrued row, once per job and identity |
| Payout.Store.RecordPayoutAndSettle | coordinator/internal/store/billing_pg.go:173-207 | adds the payout row; a created payout settles every accrued row of the identity and re-accrues the dust, a failed one touches no earning |
| Payout.SettleWithDustOwes | coordinator/internal/store/billing_pg.go:190-205 | after a settle the identity is owed exactly the dust and everyone else what they were owed |
| Payout.SettleRecordsPayout | coordinator/internal/store/billing_pg.go:190-200 | a settle marks all that was owed to the identity as paid by this payout and leaves what other payouts paid as it was |
| Payout.Store.PayOne | coordinator/internal/api/billing.go:359-412 | one turn of the loop, for a current report or a stale one, whatever the transfer and the store answer: the decision in the order of the tests, the amount transferred, the payout row, and what everyone is owed afterwards |
| Payout.Store.PayAll | coordinator/internal/api/billing.go:359-412 | the loop over a report: one line per identity, totals, payout rows, and every identity's transferred amount and what it is owed, also where the store does not take a settle |
| Payout.Store.AdminPayoutsRun | coordinator/internal/api/billing.go:338-421 | a whole run transfers to each identity that is due its whole cents and nothing else; where the settle commits it takes them off what the identity is owed and records created payouts of just that amount; failed payouts are recorded with the whole cents owed; a dry run changes nothing and reports as if every transfer succeeded |
| Payout.RowsRecordWhatIsPaid | coordinator/internal/api/billing.go:388-408 | the created payout rows that the store takes add up, for every identity, to what the lines say it was paid |
| Payout.FailedRowsAreWhole | coordinator/internal/api/billing.go:393-402 | every failed payout row holds the whole cents of what the identity is owed, less than a cent below it |
| Payout.LinesPayWhoIsDue | coordinator/internal/api/billing.go:359-412 | what the lines pay an identity is its whole cents if it is due, and nothing otherwise |
| PayoutRuns.GapShifts | coordinator/internal/store/billing_pg.go:190-205 | how far each step moves earned - transferred - owed away from zero |
| PayoutRuns.ConservedIffClean | coordinator/internal/api/billing.go:345-412 | transferred + owed = accrued throughout a history of overlapping runs exactly when each settle found the amount its run had read and committed |
| PayoutRuns.EarningInBetweenIsLost | coordinator/internal/store/billing_pg.go:190-194 | a history in which an earning between read and settle is marked paid and never transferred |
| PayoutRuns.LostSettleIsPaidTwice | coordinator/internal/api/billing.go:388-408 | a history in which a transfer whose settle does not commit is made again by the next run |
| PayoutRuns.ReportsAgree | coordinator/internal/store/billing_pg.go:151-171 | what a run of a history reads is the store's report, identity by identity |
| PayoutRuns.DustIsCarried | coordinator/internal/api/billing.go:373-408 | after a committed payout of a clean history less than a cent is owed and all earnings rounded down to cents have been transferred |
| PayoutRuns.EveryHistoryIsSound | coordinator/internal/api/billing.go:373-408 | in every history rows stay non-negative, and transfers and payout rows are whole cents |
| PayoutRuns.BookedIffSettled | coordinator/internal/api/billing.go:388-408 | the created payouts to an identity add up to what was transferred to it, throughout a history, exactly when no transfer to it lost its settle |
| PayoutRuns.NeverOverbooked | coordinator/internal/api/billing.go:388-408 | in every history they add up to no more than was transferred |
| PayoutRuns.UndisturbedReadIsClean | coordinator/internal/store/billing_pg.go:151-207 | a settle is clean when the identity neither earned nor settled between the run's read and it |
| PayoutRuns.RunIsHistory | coordinator/internal/api/billing.go:338-421 | an uninterrupted run of the store is a history: a read, then one skip, failure, settle or lost settle for each reported identity; it transfers to every identity and leaves owed what the store's run does, and writes the same payout rows |
| PayoutRuns.RecordingIsHistory | coordinator/internal/store/postgres.go:190-210 | recording an earning in the store is a step of a history, with the same effect on what everyone is owed |
| Council.Evaluate | coordinator/internal/council/evaluate.go:117-188 | selected seats, decision, missing seats and required controls are those of the loop-free gate over the first seats by rank |
| Council.Collect | coordinator/internal/council/evaluate.go:132-145 | who is missing, and the union of the required controls of those who answered |
| Council.CountBlocks | coordinator/internal/council/evaluate.go:147-176 | critical and high blocks are counted, and whether every answer approves, a blank decision counting as conditional |
| Council.SortedList | coordinator/internal/council/evaluate.go:184-188 | the controls once each in string order |
| Council.AnswerIgnoresOrder | coordinator/internal/council/evaluate.go:122-188 | with distinct seat hashes nothing in the answer depends on the order of the reviewers |
| Council.GateIsMonotone | coordinator/internal/council/evaluate.go:147-176 | making answers stricter at any seats never makes the gate's decision more lenient |
| Council.StricterAnswersNeverRelax | coordinator/internal/council/evaluate.go:117-176 | the same for whole evaluations, whose selected seats stay the same |
| Council.AcceptedMeansAllAnswered | coordinator/internal/council/evaluate.go:81-83 | an acceptable outcome has an answer from every selected seat |
| Council.MissingAreThoseThatFailed | coordinator/internal/council/evaluate.go:132-138 | missing are exactly the selected seats that gave no answer |
| Council.RequiredAreThoseAskedFor | coordinator/internal/council/evaluate.go:178-188 | required are exactly the controls that some selected reviewer asked for |
| Council.GateInNumbers | coordinator/internal/council/evaluate.go:147-176 | the decision from the answers counted: blocked by a missing seat, by enough critical blocks, or by enough high or critical ones; approved if every answer approves; conditional otherwise |
| Council.FirstByRankAreAsked | coordinator/internal/council/evaluate.go:117-130 | as many seats are asked as the policy says for the risk, or all there are, first by rank |
| Council.HigherRiskAsksMore | coordinator/internal/council/evaluate.go:105-114 | where counts rise with the risk, a riskier proposal is put to everyone a less risky one would be put to |
| QuoteStore.Store.CollectExpired | coordinator/internal/marketplace/marketplace.go:254-260 | removes exactly the expired quotes |
| QuoteStore.Store.FindOldest | coordinator/internal/marketplace/marketplace.go:218-224 | a quote none is older than |
| QuoteStore.Store.Create | coordinator/internal/marketplace/marketplace.go:199-227 | expired quotes go, then the oldest only if 2048 remain, then the new one is stored; nothing else changes |
| QuoteStore.Store.Get | coordinator/internal/marketplace/marketplace.go:230-238 | the quote if present and not expired |
| QuoteStore.Store.MarkAccepted | coordinator/internal/marketplace/marketplace.go:242-252 | succeeds exactly for a present, unexpired, unaccepted quote and changes only its flag |
| QuoteStore.Vet | coordinator/internal/api/workloads.go:283-330 | a request passes exactly when the quote is found, the caller's, unaccepted, runnable, not blocked, affordable, and the request itself is admissible |
| QuoteStore.Accept | coordinator/internal/api/workloads.go:283-335 | an uninterrupted request answers with the first failing test, takes the quote exactly when none fails at the look and it can be taken at the lock, and otherwise changes nothing |
| QuoteStore.EveryRunIsSound | coordinator/internal/marketplace/marketplace.go:199-260 | over every interleaving of creates, looks, locks and ends of executions: the store stays within 2048, executions belong to offers as made, and an accepted quote cannot be taken again |
| QuoteStore.OneQuoteOneCharge | coordinator/internal/api/runs.go:205-213 | over every interleaving a quote is accepted at most once, never after expiry, and only with items to run and the Council's acceptance, and its debits total exactly the quoted price if an execution settled and nothing otherwise |
| QuoteStore.LoserStaysOut | coordinator/internal/api/workloads.go:332-335 | once one of two racing requests has locked the quote the other is turned away for ever |
| QuoteStore.LiveQuoteCanBeTaken | coordinator/internal/marketplace/marketplace.go:230-252 | until it expires, its last moment included, a quote that was neither taken nor dropped to make room is found and can be taken, whatever else happened since |
| QuoteStore.ExpiredQuoteIsGone | coordinator/internal/marketplace/marketplace.go:230-252 | and after that it is neither found nor taken |
| QuoteStore.VettedRequestTakes | coordinator/internal/api/workloads.go:332-335 | a request that passed every test and finds the quote untaken takes it: accepted there and then, one new execution of this quote, nobody can take it again |
| QuoteStore.TakenQuoteIsCharged | coordinator/internal/api/runs.go:205-213 | a taken quote is charged its price when its execution ends with an item that succeeded and the debit is recorded, and nothing before or otherwise |
| QuoteStore.ExecutionSettles | coordinator/internal/api/runs.go:205-213 | an executed workload, settled at the quoted price, is an execution whose debit is what the workload took from its caller, or nothing where the ledger does not record it |
| EventRing.Ring.Put | coordinator/internal/events/events.go:51-57 | under the lock: one more event in the history, the buffer still standing for the last ones that fit |
| EventRing.Ring.Push | coordinator/internal/events/events.go:49-59 | the event carries the next number and is appended; sequential pushes keep numbers ascending |
| EventRing.Ring.Snapshot | coordinator/internal/events/events.go:62-74 | the last min(n, capacity) of all n events, in order |
| EventRing.Ring.Len | coordinator/internal/events/events.go:140-147 | min(n, capacity) |
| EventRing.Ring.Recent | coordinator/internal/events/events.go:79-101 | the early-exit query; exactly the first `limit` matches of all that is held when stored numbers never descend |
| EventRing.EarlyAnswerIsAsked | coordinator/internal/events/events.go:79-99 | whatever order numbers were stored in, a poll answers with held events above the floor, of the asked level and with the asked text in the message or an attribute, and with no more of them than an accepted limit, 200 for any other |
| EventRing.NothingIsHeldBack | coordinator/internal/events/events.go:79-99 | if numbers never descend, every held event that was asked for is answered unless the limit is full |
| EventRing.AnswersComeNewestFirst | coordinator/internal/events/events.go:86-99 | sequential pushes are answered newest first |
| EventRing.ContainsIffOccurs | coordinator/internal/events/events.go:103-113 | the text filter finds the text exactly when it occurs at some position |
| EventRing.ScanBack | coordinator/internal/events/events.go:86-100 | the query's backward loop |
| EventRing.OverwriteKeepsStanding | coordinator/internal/events/events.go:51-56 | overwriting the slot at the head is pushing on the list of the last events that fit |
| EventRing.EarlyAnswerExactIff | coordinator/internal/events/events.go:86-99 | for one query: exact just when the limit was reached before the exit or nothing wanted lies behind it |
| EventRing.ExactIffDescentsAreOld | coordinator/internal/events/events.go:86-99 | for any pair of filters and any largest limit: every poll is exact exactly when each event that the filters let through and that has a lower number stored after it is followed, beyond that lower number, by as many events that they let through as the largest limit |
| EventRing.ExactIffRecentNeverDescend | coordinator/internal/events/events.go:86-99 | without filters: exactly when no event among as many of the last as the largest limit has a lower number than one stored before it |
| EventRing.RecentIsExactIff | coordinator/internal/events/events.go:79-99 | at the source's own cap: every unfiltered poll is exact exactly when the last 1000 events are no lower than any before them; and a ring that holds no more than 1000 answers every poll exactly, filtered or not, exactly when its numbers never descend |
| EventRing.DescentIsMissed | coordinator/internal/events/events.go:86-99 | where numbers descend, the poll for everything after the lower one misses every higher event stored earlier, unless what lies after fills its limit |
| EventRing.NeverDescendsMakesExact | coordinator/internal/events/events.go:86-99 | whatever the filters and the limit, numbers that never descend make a query exact |
| EventRing.AscendingMakesExact | coordinator/internal/events/events.go:86-99 | numbers stored in the order they were drawn make every query exact |
| EventRing.SwappedPushIsMissed | coordinator/internal/events/events.go:50-51 | two swapped events, and the poll that misses one of them |
| EventRing.SwappedPushes | coordinator/internal/events/events.go:49-59 | two pushes that draw their numbers before the lock reach that state on a new ring, and the query misses the event |
| Der.FindContextTagged | coordinator/internal/attest/android.go:258-308 | on arbitrary bytes: any hit is the content of a true element reached over whole non-matching elements, and no hit means there is none |
| Der.ReadIdentifier | coordinator/internal/attest/android.go:264-281 | the identifier octets end where ITU-T X.690 section 8.1.2 says, the tag number kept in 64 bits, or no element starts here |
| Der.ReadLength | coordinator/internal/attest/android.go:282-297 | the length octets and their value by section 8.1.3, or no element starts here |
| Der.AnswerIsUnique | coordinator/internal/attest/android.go:258-308 | the input admits one answer only |
| Der.DeadEnd | coordinator/internal/attest/android.go:261-300 | once a scan has to stop, no reading of the input contains a hit |
| Der.ElementIsUnique | coordinator/internal/attest/android.go:264-301 | no element is a proper beginning of another |
| Der.EncodingIsWellFormed | coordinator/internal/attest/android.go:264-297 | the encoder's octets are well formed and carry their tag and length |
| Der.ScanInvertsEncoding | coordinator/internal/attest/android.go:258-308 | scanning an encoded list finds the first context-class element whose tag is the wanted one modulo 2^64 |
| Der.RoundTrip | coordinator/internal/attest/android.go:258-308 | for tags below 2^64 scanning inverts encoding |
| Der.StopsRightIffNoAliasBefore | coordinator/internal/attest/android.go:258-308 | with tags of any size the scan returns the first wanted element's content, or nothing if there is none, exactly when no alias of the tag comes before it or the first alias happens to hold the same content |
| Der.WideTagIsTakenForAnother | coordinator/internal/attest/android.go:276 | such an alias: tag 2^64 + 704 is taken for 704 |

## Left out

Weaker or narrower than the source:

- Stream.SuccessIsFaithful: boxes the coordinator itself sealed and the network sends back to it are excluded; the ideal box carries no direction, while the coordinator's own request opens under the same pair of keys.
- Stream.SuccessOfOneRun: for a job that took exactly 2^32 tokens (possible only without a ceiling below that) the text is not stated, because the saturated counter lets the last token be a later one; `Stream.SaturationConfusesTokens` is such a run.
- Relay.EventLoop: starts after the job request was sent; sending and signing it, the failure of that send, and the slot gauge around the loop are not modelled.
- Workload.ExecuteWorkload: the model class and the two configured price factors are given; usage events, wall time, latencies, progress callbacks and the run review are not modelled; a debit that the store fails to record is modelled in `QuoteStore` only.
- Batch.NoProviderIsOverloaded: the list of candidates is any list without repetition; the sort by measured throughput that may precede it is not modelled.
- Pricing.AccrualsStayWithinQuote: here and in every other law of `Pricing` floating-point products are exact reals and 64-bit integers unbounded; class and tier names are already normalised.
- Batch.EveryPoolCanDrain: that every execution eventually answers is the executor's part; a pool whose execution never returns waits, as the source does.
- RateLimit.SpanBound: token counts are exact reals.
- Scheduler.Eligible: works on one snapshot; load and drain flags that change while it sorts are not modelled.
- Roster.SelectRoster: scores are exact reals, their range check on construction and the digest of the selection are not modelled.
- Council.Evaluate: the dissent list (its ties depend on map order), the audit hash and the reviews' texts are not modelled; the rank of a seat is any function.
- QuoteStore.Accept: ids are never reused (`EveryRunIsSound` and what follows from it), the time stamp of an acceptance and the rendering of answers are not modelled.
- Payout.Store.PayAll: nothing else writes the rows while the loop runs; what happens when something does is in `PayoutRuns`, where this loop is one history (`PayoutRuns.RunIsHistory`).
- Payout.Store.AdminPayoutsRun: as `Payout.Store.PayAll`; the answers of Stripe and of the store are parameters.
- Payout.Store.AccruedByProvider: the order of identities owed the same is left open, as in SQL.
- EventRing.Ring.Recent: trimming and case folding are parameters; the 64-bit counter is unbounded.
- HashChain.AuditLog.Verify: the canonical form and SHA-256 are one arbitrary function of the record's body.

Not modelled:

- HTTP, WebSocket, JSON, SQL, Stripe, webhook and user-interface plumbing.
- Cryptography itself: box sealing is an ideal authenticated channel, hashes arbitrary functions.
- The validity of the Go public decision ledger after trimming at 50 records, which breaks the chain to the seeded ones.
- The per-key limit on background runs under concurrency, which is checked and counted in separate steps.
- The in-memory store's accrual path, which returns early for known providers and does not meet the store's contract.
- The rest of the Python Council (`evaluate`, structured-fact checks), public-record field checks, and the Go reviewers themselves.
- Completion-time and token-volume estimates, event counts by window, ACU scoring, manifests, pairing codes: they would only add easy members.
