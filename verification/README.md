# Verification model of onegw's stateful core

onegw is a gateway in front of many model providers.  This project models the parts of it that carry
state and arithmetic, and proves what they promise for every input and every run:

- **the account pool** of a provider: weighted slots, the 429 ladder, billing marks with parole,
  refill buckets shared between slots, the edge breaker, pins, in-flight counts and five selection
  strategies (`TokenBucket`, `PoolState`, `PoolAdmission`, `PoolReady`, `PoolRuns`, `PoolBenches`,
  `PoolBudgets`, `PoolBursts`, `PoolAccounts`, `PoolPicks`, `PoolRotation`, `PoolSpread`, `PoolObject`);
- **the idempotency cache**: coalescing of concurrent requests, a bounded LRU with a byte budget
  (`IdempotencyState`, `IdempotencyRuns`, `IdempotencyRetention`, `IdempotencyAnswers`,
  `IdempotencyObject`);
- **the router**: the fallback loop over targets, sticky round-robin and the reorderings in front of
  it (`Fallback`, `FallThrough`, `RoundRobin`, `Reorder`);
- **quota windows and counters** (`Calendar`, `QuotaWindows`, `QuotaTracker`, `QuotaCalendar`);
- **the per-key rate limiter** (`SlidingWindow`, `RateLimiter`);
- **the config editor's TOML strings and key lists** (`TomlStrings`, `TomlLayouts`, `AuthKeys`,
  `AuthFile`);
- **the OAuth token store** of several processes over one file (`TokenFileState`, `TokenStaleness`,
  `TokenStore`).

One module per file.  Where the source updates an object in place there is a class whose methods loop
and assign like the source, each proved equal to a function on values; the theorems are about those
functions and about runs of them.  Clocks, random draws, measured speeds and upstream answers are
arbitrary inputs, so a theorem over a run holds for every schedule of requests and every behaviour of
the upstream.  Instants are integers in the source's own unit; a bucket's token is 60*10^9 units and
its refill `rpm` units per nanosecond, which makes the source's rate exact.

`dafny verify dfyconfig.toml` checks the whole project.

## What does not hold

Ten things the source's comments, callers or configuration suggest are not so.  Each has a concrete
witness and the exact condition under which the promise holds:

- a bucket's stated capacity of two tokens is not kept: the refill has no cap (`IdleHourPilesUp`,
  `CapacityKeptExactlyWhen`), so a burst is whatever has piled up (`BurstIsLevel`, `BurstThroughNext`);
- "two tokens plus the refill" does not bound the grants at every rate: a remainder within a nanosecond
  of a token is granted uncharged (`LoneOverruns`); it does exactly at the rates that divide a token
  evenly (`BudgetExactlyWhen`);
- the slots of one account do not always share one bucket: they do exactly when no account with a
  budget repeats an earlier one's name and key (`RepeatSplits`, `NewPoolBuckets`);
- a refusal's ready instant can be early (`TerminalReadyCanBeEarly`, `ReadyIsHonestExactlyWhen`);
- least-busy selection can stack a call on a busier account (`WeightStacksCalls`): it never does exactly
  when all accounts are distinct and of weight 1, or there is only one account (`SpreadsExactlyWhen`);
- one gated 403 lifts the attempt budget of its target (`GatedLiftsBudget`, `BudgetStandsExactlyWhen`);
- an expired origin's late `Finish` is not without effect: it settles a newer origin's record
  (`LateFinishSettlesNewerOrigin`, `FinishDoesNothingExactlyWhen`);
- the token limiter's retry value is only a lower bound (`TokenRetryNotTight`, `RetryLiftsExactlyWhen`);
- the token store's write is not atomic between its second sync and the rename
  (`OvertakenCommitLosesUpdate`, `OvertakenCommitExactly`);
- and its second sync can take a Put's own token back (`TieLosesPut`): exactly when the key's old token
  carries the very reading of the Put and others have put only other keys (`BetweenSyncsExactly`).

## Model

| member | source | states |
|---|---|---|
| TokenBuckets.TokenBucket.Take | internal/provider/provider.go:1355-1368 | the in-place take: first use starts the clock, later ones add the refill uncapped, a token is spent only if there is one |
| TokenBuckets.TokenBucket.RefillInstant | internal/provider/provider.go:1371-1379 | reads the next-token instant, truncated to the nanosecond, without changing the bucket |
| TokenBuckets.OpenGateHoldsToken | internal/provider/provider.go:1355-1379 | the gate is open iff a take would find a token, a sub-nanosecond remainder at the instant of the last take apart |
| TokenBuckets.OpenFromIsExact | internal/provider/provider.go:1371-1379 | once open a gate stays open: it is open at t iff t has reached one closed-form instant |
| TokenBuckets.RefillAtHonest | internal/provider/provider.go:1371-1379 | the reported instant, computed from the tokens as of the last take, is late but never early |
| TokenBuckets.CapacityKeptExactlyWhen | internal/provider/provider.go:1338-1361 | a bucket stays within the stated two tokens exactly until it has idled long enough to refill past them |
| TokenBuckets.IdleHourPilesUp | internal/provider/provider.go:1343-1361 | witness: an hour idle at 60 rpm leaves 3601 tokens |
| TokenBuckets.BurstIsLevel | internal/provider/provider.go:1355-1368 | m takes at one instant all succeed iff the bucket holds m tokens, however many have piled up |
| TokenBuckets.GateBurst | internal/provider/provider.go:1355-1379 | m picks at one instant all find the gate open iff it holds m tokens or its remainder is within a nanosecond of another |
| PoolState.PickInOpen | internal/provider/provider.go:3137-3211 | under every selection mode the slot picked is open and no open slot has fewer calls in flight |
| PoolState.StrategyMeaning | internal/provider/provider.go:3160-3226 | least-used picks the longest unused, the default picks the fastest, p2c picks the cheaper of two distinct candidates |
| PoolState.DeckAlwaysHits | internal/provider/provider.go:3265-3291 | strict-random always finds an open slot in the deck or its one reshuffle; the `open[0]` fallback is unreachable |
| PoolPicks.DrawsReachAll | internal/provider/provider.go:3186-3199 | every candidate can be drawn in random mode, and any two of them compared in p2c |
| PoolRotation.ServesFirstAmongEquals | internal/provider/provider.go:1603-1672 | default mode: the account handed out by the scan has fewer calls in flight than any other open one, or as many and is faster, or as fast and nearer after the cursor; a closed pinned account moves the start past itself |
| PoolRotation.CursorAfterNext | internal/provider/provider.go:1666-1684 | the scan leaves the cursor one past the slot it hands out; a pinned hand-out and a refusal leave it alone |
| PoolRotation.HandsOutInTurn | internal/provider/provider.go:1561-1684 | over any run, picks that find all slots open, equally busy and equally fast hand them out in turn from the cursor on, whatever happens between them |
| PoolRotation.OncePerRound | internal/provider/provider.go:1561-1684 | so any n such picks in a row hand out each of the n slots exactly once |
| PoolRotation.NewPoolRotates | internal/provider/provider.go:1485-1507 | a pool built without budgets and picked from at equal speeds hands out 0, 1, ..., n-1, 0, 1, ... |
| PoolAdmission.AdmitsExactlyWhenOpen | internal/provider/provider.go:1561-1684 | `next` hands out an account iff the breaker is closed, some slot passes its gates and the shared budget is ready, for every identity, cursor, pin, mode and draw |
| PoolAdmission.OffersLeastBusyOpenSlot | internal/provider/provider.go:1561-1684 | the slot handed out passes every gate and has the fewest calls in flight of all open slots, on the pinned path too |
| PoolAdmission.GrantedTakesSucceed | internal/provider/provider.go:1689-1711 | neither take inside `grant` fails, except in exactly the sub-nanosecond case |
| PoolAdmission.PinHoldsAcrossCalls | internal/provider/provider.go:1969-2004 | a pick pins its account: the identity returns to it while the pin lives and the account is idle and open; spreading away from a busy account keeps the old pin |
| PoolPicks.PinsFor | internal/provider/provider.go:1969-2004 | which picks pin and for how long: a conversation 15 minutes or the configured TTL, others only under a TTL, the empty identity never |
| PoolPicks.DeadPinIgnored | internal/provider/provider.go:1603-1639 | a pin that has expired, or whose account is gone, decides nothing |
| PoolPicks.UnpinForgets | internal/provider/provider.go:2007-2014 | unpinning drops that pin and nothing else |
| PoolPicks.HandingOutStamps | internal/provider/provider.go:1703-1711 | the slot handed out is stamped with the reading, and no other |
| PoolPicks.PinHoldsOverRun | internal/provider/provider.go:1609-1639 | the same over any run of other traffic that never finds the pin table full of unexpired pins, and of calls of the identity itself while its account is up |
| PoolPicks.OncePerDeck | internal/provider/provider.go:3261-3291 | strict-random: the picks a deck serves from where it stands are all different, and a slot still in it that is open throughout is served before the reshuffle |
| PoolPicks.OncePerDeckThroughNext | internal/provider/provider.go:1561-1684 | the same for the picks made through `next` over any run of the pool; pinned calls, refusals and a single least busy slot leave the deck alone |
| PoolPicks.NextDealsOnce | internal/provider/provider.go:3137-3211 | one call of `next` makes one deck pick or leaves the deck as it was |
| PoolPicks.PassedOverIsLost | internal/provider/provider.go:3265-3291 | an entry passed over because its slot is closed is not retried from the same deck, although the comment says it is retried later |
| PoolPicks.ReshuffleRestarts | internal/provider/provider.go:3274-3289 | the pick that finds the deck used up starts a fresh one, from which the same holds |
| PoolSpread.OffersLeastBusyAccount | internal/provider/provider.go:3137-3169 | where every account has one slot the account handed out has the fewest calls in flight of all open accounts |
| PoolSpread.WeightStacksCalls | internal/provider/provider.go:1745-1754 | witness: an account of weight 2 with two calls in flight is handed out though another is open with one |
| PoolSpread.SpreadsExactlyWhen | internal/provider/provider.go:3137-3169 | over every run of a pool built from a configuration, and for every identity, selection mode and draw, no pick hands out an account with more calls in flight than an open one, iff all accounts are distinct and of weight 1 or there is only one account |
| PoolSpread.SomeLoadStacks | internal/provider/provider.go:1721-1754 | in any other mix some load of calls makes a pick stack, under every selection mode and draw |
| PoolSpread.SamePick | internal/provider/provider.go:3148-3211 | with an idle slot open the pick depends on the counts only through which are zero |
| PoolAdmission.ServesFromIsExact | internal/provider/provider.go:1765-1800 | a slot passes its gates at t iff t has passed one closed-form combination of parole gate, cooldown and refill |
| PoolAdmission.AdmitsFrom | internal/provider/provider.go:1561-1684 | with the breaker closed `next` succeeds at t iff t has passed some slot's and the shared bucket's closed-form instants |
| PoolAdmission.ReadyIsHonest | internal/provider/provider.go:1640-1697 | breaker closed and no slot terminal: strictly after a refusal's ready instant every identity is served, cooldown, own bucket and shared bucket together |
| PoolAdmission.ReadyIsHonestExactlyWhen | internal/provider/provider.go:1565-1684 | the iff for all refusals, on the pool alone. Breaker open: some slot and the shared bucket are there by its end. Breaker closed: always, unless every slot is marked by hand or a slot's parole gate comes before its own cooldown or refill ends and before anything else serves |
| PoolAdmission.TerminalReadyCanBeEarly | internal/provider/provider.go:1770-1776 | witness: a terminal slot reports its parole gate although its cooldown is longer |
| PoolReady.RefusedUntilReady | internal/provider/provider.go:1640-1697 | the other side: until its ready instant, less the longest time a bucket has gone without a take, every identity is refused |
| PoolReady.RefillLateByLag | internal/provider/provider.go:1371-1379 | a closed bucket reports an instant late by at most the time since its last take |
| PoolReady.ReadyIsExactWithoutBuckets | internal/provider/provider.go:1640-1684 | without buckets and terminal slots the ready instant is exact: refused until it, served strictly after it |
| PoolRuns.NewPoolInv | internal/provider/provider.go:1485-1507 | every pool as built satisfies the invariant: weighted slots of one account start in one fault state, buckets are full and in range, the shared bucket is nobody's own |
| PoolAccounts.NewPoolBuckets | internal/provider/provider.go:1485-1507 | no bucket is shared by two accounts, and the slots of each account share one iff no account with a budget repeats an earlier name and key |
| PoolRuns.StepKeepsInv | internal/provider/provider.go:1561-2089 | every operation keeps the invariant: equal fault state on all slots of an account, stamps not in the future, well-formed buckets, bounded pins |
| PoolRuns.FaultAfterStep | internal/provider/provider.go:1817-2089 | an operation moves the fault state of exactly the slots of its own account |
| PoolBenches.SlotAfterBench | internal/provider/provider.go:1881-2039 | a 429 or a cool of d, the hint or the ladder step 10, 20, 40, 60 s, field by field: bench until now + d and stamp now on every slot of the account where that reaches beyond now and the bench that stands, else stamp and bench stay; strikes; marks |
| PoolBenches.SlotAfterRefusal | internal/provider/provider.go:2046-2067 | a refusal marks and stamps every slot of its account |
| PoolBenches.SlotAfterSuccess | internal/provider/provider.go:1817-1844 | a success, field by field, under the recency rule |
| PoolBenches.SlotAfterReset | internal/provider/provider.go:2069-2089 | an operator reset clears the slots of a terminal account only |
| PoolBenches.RefusalParoles | internal/provider/provider.go:1765-1800 | a refused account is closed for the parole, 30 minutes unless configured, and reports its end; then the mark closes it no longer |
| PoolRuns.BenchShortenedExactlyBy | internal/provider/provider.go:1817-2089 | a cooldown is shortened iff the operation is a success begun after the carried stamp or a reset of a terminal account; faults never shorten it |
| PoolRuns.MarkLiftedExactlyBy | internal/provider/provider.go:1817-2089 | a billing mark is lifted iff by a success begun after it or an operator reset |
| PoolRuns.BenchOutlivesStragglers | internal/provider/provider.go:1817-1844 | over any run, successes of calls begun before the bench never shorten it |
| PoolBenches.BenchOutlivesEarlierCalls | internal/provider/provider.go:1817-1924 | the same told on calls: a bench set at now outlives, over any run, every success of a call begun at or before now |
| PoolBenches.BenchLiftedExactlyByLaterCalls | internal/provider/provider.go:1817-1924 | a success lifts the bench set at now iff its call began after now; until then it stands at now + d exactly |
| PoolBenches.FreshSuccessClears | internal/provider/provider.go:1817-1844 | a success begun after every reading so far leaves no bench, mark or strike |
| PoolBenches.FirstBenchExample | internal/provider/provider.go:1881-1924 | witness: a first 429 at 100 s benches until 110 s; a success begun at 50 s leaves it, one begun at 101 s lifts it |
| PoolRuns.MarkOutlivesStragglers | internal/provider/provider.go:1817-1844 | the same for the billing mark |
| PoolRuns.StrikesCountHits | internal/provider/provider.go:1881-1924 | strikes equal the 429s since the last reprieve, over any run and on every weighted slot |
| PoolRuns.LadderBench | internal/provider/provider.go:1881-1924 | an unhinted 429 after k others in a row benches until max(standing bench, now + min(cap, base*2^min(k,3))) |
| PoolRuns.TokensConserved | internal/provider/provider.go:1343-1379 | over any run, tokens held plus tokens spent by grants equals tokens at the start plus rate times the time since the first take, however many slots share the bucket |
| PoolRuns.GrantBudget | internal/provider/provider.go:1343-1379 | so the charged grants of a new bucket are at most two tokens plus the refill, and it never goes negative |
| PoolRuns.TickingGrantsAreCharged | internal/provider/provider.go:1703-1711 | with strictly increasing readings every grant is charged |
| PoolBudgets.BudgetExactlyWhen | internal/provider/provider.go:1343-1379 | over every run all grants of a new bucket stay within two tokens plus the refill, and every grant is charged, iff its rate divides a token evenly |
| PoolBudgets.LoneOverruns | internal/provider/provider.go:1371-1379 | witness for every other rate: three picks granted where the budget allows fewer, the third uncharged |
| PoolBudgets.BurstThroughNext | internal/provider/provider.go:1561-1711 | through `next`, where one bucket governs every slot, a burst at one instant is granted whole iff that bucket holds a token for each pick, or leaks |
| PoolBudgets.AlignedBurst | internal/provider/provider.go:1561-1711 | at rates that divide a token evenly: iff it holds a token for each |
| PoolBursts.MixedBurst | internal/provider/provider.go:1561-1711 | in a pool of any mix of own, shared and no buckets at such rates: iff the breaker is closed, the shared bucket holds a token for each, and the own buckets of the slots that are up do together, or one of those has none |
| PoolAccounts.AccountBudget | internal/provider/provider.go:1485-1507 | over any run of a pool built without repeats an account is handed out, on all its slots together, at most 2 + rpm per minute since the pool was built, at a rate that divides a token evenly |
| PoolRuns.LiveCountsCallsInFlight | internal/provider/provider.go:1721-1754 | under any interleaving the account's first slot counts calls begun minus ended, its other slots none |
| PoolRuns.BreakerCountsFaults | internal/provider/provider.go:1850-1876 | breaker strikes equal edge faults since the last success, and a trip needs a full row |
| PoolRuns.BreakerTripsOnTheRow | internal/provider/provider.go:1850-1876 | closed before the threshold-th fault in a row, 4 unless configured; from it on open for exactly the window after the last fault, 15 s unless configured |
| PoolRuns.PinsStayBounded | internal/provider/provider.go:1969-1991 | pinning never exceeds the pin cap |
| PoolObject.AccountPool.constructor | internal/provider/provider.go:1485-1507 | building the slots, own buckets and shared bucket as heap objects |
| PoolObject.AccountPool.Next | internal/provider/provider.go:1561-1684 | the in-place `next` is the value-level step: slot, ready instant and whole new state |
| PoolObject.AccountPool.ConsultPin | internal/provider/provider.go:1603-1639 | the pin lookup at its head |
| PoolObject.AccountPool.CollectOpen | internal/provider/provider.go:1640-1672 | the rotation scan and its soonest instant |
| PoolObject.AccountPool.Available | internal/provider/provider.go:1765-1800 | the gate of one slot |
| PoolObject.AccountPool.Grant | internal/provider/provider.go:1703-1711 | takes from the shared and the own bucket object and stamps the slot |
| PoolObject.AccountPool.PickSlot | internal/provider/provider.go:3137-3211 | the idle filter followed by the strategy |
| PoolObject.AccountPool.DeckPick | internal/provider/provider.go:3265-3291 | the deck walk and reshuffle |
| PoolObject.AccountPool.PinTo | internal/provider/provider.go:1969-1991 | sweep of expired pins, reset when still full, then the new pin |
| PoolObject.AccountPool.Ok | internal/provider/provider.go:1817-1844 | success on all slots of an account |
| PoolObject.AccountPool.RateLimited | internal/provider/provider.go:1881-1924 | 429 on all slots of an account |
| PoolObject.AccountPool.CoolFor | internal/provider/provider.go:2017-2039 | bench for a given time |
| PoolObject.AccountPool.Invalidate | internal/provider/provider.go:2046-2063 | billing mark, newly set or not |
| PoolObject.AccountPool.Revalidate | internal/provider/provider.go:2069-2089 | operator reset |
| PoolObject.AccountPool.BeginCall | internal/provider/provider.go:1721-1732 | counts a call on the account's first slot |
| PoolObject.AccountPool.EndCall | internal/provider/provider.go:1734-1754 | uncounts it, never below zero |
| PoolObject.AccountPool.StrikeEdge | internal/provider/provider.go:1850-1866 | edge fault |
| PoolObject.AccountPool.HealEdge | internal/provider/provider.go:1868-1876 | edge success |
| PoolObject.AccountPool.Unpin | internal/provider/provider.go:2007-2014 | drops a pin |
| IdempotencyRuns.ClaimKeepsInv | internal/idempotency/idempotency.go:180-207 | `Claim` keeps the whole invariant: waiters, byte accounting, bounds, list and map agreeing |
| IdempotencyRuns.FinishKeepsInv | internal/idempotency/idempotency.go:213-289 | so does `Finish` with its evictions |
| IdempotencyRuns.EveryWaiterExactlyOnce | internal/idempotency/idempotency.go:180-289 | after every operation of every run each waiter ever issued is on exactly one incomplete record, of its own key, or got exactly one result and is on none |
| IdempotencyRuns.AccountedAndBounded | internal/idempotency/idempotency.go:180-289 | after every operation of every run list and map hold the same keys, bytes equal the stored non-stream bodies and stay within 4 MiB, complete records are within the capacity, 128 unless configured and at most 1024 |
| IdempotencyRuns.WokenAreEmpty | internal/idempotency/idempotency.go:284-289 | no send ever meets a full channel |
| IdempotencyRuns.ClaimAnswers | internal/idempotency/idempotency.go:180-207 | each answer iff its condition on the unexpired record of the key; Miss iff there is none |
| IdempotencyAnswers.FinishAnswers | internal/idempotency/idempotency.go:213-244 | a whole result of at most 1 MiB reaches every waiter of the record as it is and is replayed to every claim within the TTL while the record stays; of a stream or a larger one only the status, and the claim is a conflict |
| IdempotencyAnswers.VanishedAnswers | internal/idempotency/idempotency.go:226-233 | nothing written, Gone, status 0 or 499: no record, waiters told so, the next claim runs anew, other records untouched |
| IdempotencyAnswers.FirstResultReplays | internal/idempotency/idempotency.go:180-244 | on a new cache the first result of at most 1 MiB is replayed within its TTL |
| IdempotencyRuns.InFlightLeavesOnlyByFinish | internal/idempotency/idempotency.go:180-282 | an unexpired in-flight record leaves or settles only through a `Finish` of its key and keeps its waiters until then |
| IdempotencyRuns.EnforceBounds | internal/idempotency/idempotency.go:248-282 | eviction terminates within the byte budget and, for complete records, the capacity, accounting exactly |
| IdempotencyAnswers.EnforceEnds | internal/idempotency/idempotency.go:248-270 | eviction goes on until both limits hold or only unexpired requests in flight are left |
| IdempotencyRuns.ResultsComeFromFinish | internal/idempotency/idempotency.go:180-289 | every result stored or delivered over a run was supplied by a `Finish` of its own key, or is Gone |
| IdempotencyRuns.ReplayIsFinishedWithinTTL | internal/idempotency/idempotency.go:180-207 | every Replay returns a result finished for that key under a record claimed within the TTL |
| IdempotencyRuns.ListIsByRecency | internal/idempotency/idempotency.go:180-282 | the list is in order of last use after every operation |
| IdempotencyRuns.EvictsLeastRecentlyUsed | internal/idempotency/idempotency.go:248-270 | the entry evicted is the least recently used of those that may be dropped |
| IdempotencyRetention.EnforceRetains | internal/idempotency/idempotency.go:248-270 | eviction never reaches a settled record that fits, with everything used since and the records in flight behind it, into capacity and byte budget |
| IdempotencyRetention.StaysReplayable | internal/idempotency/idempotency.go:180-270 | over any run such a record survives, and within its TTL a claim replays that very result |
| IdempotencyRuns.LateFinishSettlesNewerOrigin | internal/idempotency/idempotency.go:186-238 | witness: an expired origin's `Finish` settles the newer origin's record and wakes its waiters |
| IdempotencyRuns.FinishDoesNothingExactlyWhen | internal/idempotency/idempotency.go:213-244 | `Finish` is without effect iff no record of the key is in flight |
| IdempotencyObject.IdempotencyCache.ClaimKey | internal/idempotency/idempotency.go:180-207 | the in-place claim is the value-level step |
| IdempotencyObject.IdempotencyCache.FinishKey | internal/idempotency/idempotency.go:213-244 | the in-place finish |
| IdempotencyObject.IdempotencyCache.EnforceLimits | internal/idempotency/idempotency.go:248-256 | the eviction loop |
| IdempotencyObject.IdempotencyCache.FindEvictable | internal/idempotency/idempotency.go:262-270 | the walk from the back of the list |
| IdempotencyObject.IdempotencyCache.Remove | internal/idempotency/idempotency.go:274-282 | removal with its wake-up |
| Fallback.CallsAreOrderedAndStop | internal/router/router.go:479-807 | for any error oracle calls visit targets in list order, only live ones, and none follows an answer, a committed stream or a terminal refusal |
| Fallback.DispatchAgrees | internal/router/router.go:607-700 | the dispatch ends the request, and rotates, on exactly the errors whose flags say so |
| Fallback.SuccessIffOneResult | internal/router/router.go:560-807 | the request succeeds iff exactly one call answered, and it was the last |
| Fallback.NoSilentModelSwitch | internal/router/router.go:471-497 | with combo fallback off all calls of a combo go to the first known, enabled target |
| FallThrough.TargetsTakeTurns | internal/router/router.go:479-807 | for any script: the calls on each target are its attempts on the turns the targets before it left; a leg that falls, on a spent budget, an empty pool, a broken stream or any other error, hands them on |
| FallThrough.ServedExactlyWhen | internal/router/router.go:479-807 | a request is served iff some target that is tried answers |
| FallThrough.RunsOutExactlyWhen | internal/router/router.go:479-807 | it is refused by running out, with the client there and no call that ends it, iff every target was passed |
| FallThrough.RefusedAfterAll | internal/router/router.go:479-807 | such a refusal has tried every target it could start on, and returns the last target's error |
| FallThrough.EveryTargetCalled | internal/router/router.go:479-594 | while pools hand out accounts it has called each of them |
| FallThrough.NoFallbackIsOneLeg | internal/router/router.go:479-547 | with combo fallback off the request is exactly the attempts on the first known, enabled target, with that target's error |
| FallThrough.UpstreamErrorIsTheLast | internal/router/router.go:596-807 | an upstream error that is returned is the one of the last call |
| FallThrough.SpentBudgetFallsThrough | internal/router/router.go:479-594 | witness: one attempt each, a retryable 500 and then an answer give two calls and success |
| FallThrough.RetriedExactlyWhen | internal/router/router.go:607-770 | which errors give the same target a second call, and which of them when the client hangs up meanwhile |
| Fallback.AttemptBudget | internal/router/router.go:561-807 | a bounded target that answers no gated 403 gets at most max(1, MaxAttempts) calls |
| Fallback.GatedLiftsBudget | internal/router/router.go:561-561 | witness family, on any bounded target of any list a request can get to: after one gated 403 transient errors keep it retrying without limit |
| Fallback.BudgetStandsExactlyWhen | internal/router/router.go:479-562 | the budget of a bounded target, anywhere in any list, holds for every upstream behaviour iff its provider has no account to rotate or no request can get to the target |
| Fallback.LegBudgetExactlyWhen | internal/router/router.go:694-713 | with the bench of a sole account still on at the next pick, the attempts on a bounded target stay within its budget for every upstream behaviour iff it has at most one account |
| Fallback.GatedBound | internal/router/router.go:548-807 | a target answers at most len(Accounts)+1 gated 403s |
| Fallback.PanicsExactlyWhenGatedOut | internal/router/router.go:560-807 | the panic guard is reached iff a retry_forever leg of a combo ended on its (len(Accounts)+1)-th gated 403 |
| Fallback.JudgeError | internal/router/router.go:620-790 | the dispatch on one failed call |
| Fallback.TryTarget | internal/router/router.go:560-807 | the attempt loop on one target |
| Fallback.ExecuteRequest | internal/router/router.go:442-807 | the loop over targets; `onResult` runs once iff the request succeeds |
| RoundRobin.OverlapKeepsInv | internal/router/router.go:1040-1127 | under any overlap of requests: no winner with run 0, or a winner in range with 1 <= run < limit |
| RoundRobin.NextLeadsWithServer | internal/router/router.go:1053-1126 | after a serial success, fallback leg or not, the next request leads with the leg that served, or its successor when its run is spent |
| RoundRobin.NextLeadsWithServerExactlyWhen | internal/router/router.go:1086-1126 | with repeated targets, or another reordering in front of the next request: it leads with the target that served iff the next order holds that target in the same place |
| RoundRobin.LimitTurnsEach | internal/router/router.go:1040-1127 | serial all-success requests give each leg exactly `limit` consecutive turns in rotation |
| RoundRobin.ConfiguredTurnsEach | internal/router/router.go:1024-1034 | three turns unless configured, and the configured number up to 1000 |
| RoundRobin.RotateIsOffset | internal/router/router.go:1065-1115 | rotated index j is configured index (j + lead) mod n |
| RoundRobin.ComboRR.RotateTargets | internal/router/router.go:1040-1071 | the rotation of one request |
| RoundRobin.ComboRR.RecordSuccess | internal/router/router.go:1078-1127 | the bookkeeping after a success, in configured coordinates |
| Reorder.AnyReorderingPermutes | internal/router/router.go:447-470 | any composition of task, verdict, speed and round-robin reordering is a permutation of the configured targets |
| Reorder.StableSortCorrect | internal/router/task.go:453-468 | the sort permutes, descends by score and keeps the order of equal scores |
| Reorder.StableOrderIsUnique | internal/router/task.go:453-468 | no other list does, so every stable sort returns this order |
| Reorder.BlindTargetsComeLast | internal/router/task.go:241-250 | powers in 0-150, image request: every declared non-vision target comes after every other target |
| Reorder.FittingTargetsByDistance | internal/router/task.go:241-281 | a target with no hard miss and a power its level accepts precedes every target further from the level's power and every misfit no closer |
| Reorder.CheaperGoesFirst | internal/router/task.go:241-281 | the task order is by cost: distance from the level's power plus the price of a missing capability, too small a window or output, and a power the level calls too small or excessive |
| Reorder.ClassifyMonotone | internal/router/task.go:132-201 | a request that asks for more on every signal is never classified lower |
| Reorder.UnmeasuredComeLast | internal/router/task.go:348-412 | in both speed regimes legs without data stand behind every measured leg, in configured order |
| Reorder.FasterGoesFirst | internal/router/task.go:360-412 | between measured legs, fewer predicted seconds first from 32000 tokens on once a leg has three samples, otherwise the higher decode speed |
| Reorder.SizeAwareKeepsSmallRequests | internal/router/task.go:376-384 | the size-aware strategy leaves the order alone when prefill does not matter or is unmeasured |
| Reorder.ScoreVerdictPromotesClosest | internal/router/router.go:899-935 | a score verdict swaps the first declared target of the closest power to the front, or nothing |
| Reorder.ChoiceVerdictPromotesNamed | internal/router/router.go:933-949 | a choice verdict swaps the first target whose provider or model is the option to the front; no such target, or a neutral verdict, moves nothing |
| Reorder.Classify | internal/router/task.go:132-201 | the level, with the one critical reason, or one reason per heavy signal that holds, or the default |
| Reorder.OneReasonEach | internal/router/task.go:152-200 | as many reasons as heavy signals, so at most one on a request below heavy |
| Reorder.ReorderByTask | internal/router/task.go:455-468 | in place, the stable order by task score |
| Reorder.ReorderBySpeed | internal/router/task.go:360-426 | in place, the stable order by speed, or unchanged |
| Reorder.ApplyVerdict | internal/router/router.go:897-951 | in place, the swap the verdict asks for |
| Calendar.DateRoundTrip | internal/quota/quota.go:169-191 | the date of every day number is a real date and leads back to that day (section 5.7 and Appendix C of RFC 3339) |
| Calendar.DayRoundTrip | internal/quota/quota.go:169-191 | and every real date leads back to itself |
| Calendar.DaysInIsMonthDays | internal/quota/quota.go:194-196 | day 0 of the next month gives the month's length, leap years included |
| Calendar.MonthShiftAdds | internal/quota/quota.go:199-207 | shifting months adds to the month count, across years in both directions |
| QuotaWindows.FloorDivIsFloor | internal/quota/quota.go:215-221 | the corrected truncating quotient is the floor |
| QuotaWindows.GridTiles | internal/quota/quota.go:210-221 | grid windows contain their instant, agree inside and meet at their ends |
| QuotaWindows.ReanchorNeverDrifts | internal/quota/quota.go:210-221 | re-anchoring a grid on one of its window starts changes nothing |
| QuotaWindows.IsoWeekIsGrid | internal/quota/quota.go:224-232 | ISO weeks are the Monday grid |
| QuotaWindows.MonthTiles | internal/quota/quota.go:169-207 | month windows tile time, clamped month ends and leap years included |
| QuotaWindows.WindowsTile | internal/quota/quota.go:126-232 | for every kind and anchor the window contains now, every instant inside yields it, and its end starts the next |
| QuotaCalendar.WindowIsOfKind | internal/quota/quota.go:126-232 | daily: 24 hours from a UTC midnight or whole days from the anchor; weekly: 7 days from a Monday midnight or whole weeks from it; monthly: from the first, or the clamped anchor day and time, to the next; custom: its own length on its origin's grid |
| QuotaCalendar.CustomWindows | internal/quota/quota.go:143-160 | no window for a duration that did not parse or is not positive; without an origin it runs from now |
| QuotaTracker.CarriedGrid | internal/quota/quota.go:260-270 | an unanchored rolling window carried from start to start stays on the grid of the first observation |
| QuotaTracker.StatusIsLogSum | internal/quota/quota.go:239-306 | for observations at non-decreasing times the counters of `Status` equal the sum over exactly the logged observations in the window containing now, and it reports exhaustion iff one of them has reached its limit |
| QuotaTracker.StatusWindow | internal/quota/quota.go:275-306 | and that window is the one of the provider's fixed grid |
| QuotaCalendar.StatusWindowIsOfKind | internal/quota/quota.go:126-306 | so `Status` counts over a window of the configured kind that contains now |
| QuotaTracker.ExhaustionLasts | internal/quota/quota.go:275-334 | once exhausted a provider stays so until its window ends, whatever is observed |
| QuotaTracker.Tracker.RollTo | internal/quota/quota.go:260-270 | the roll of one state |
| QuotaTracker.Tracker.Observe | internal/quota/quota.go:239-254 | rolls and adds to one provider's counters, leaving the others |
| QuotaTracker.Tracker.GetStatus | internal/quota/quota.go:275-306 | reads without rolling |
| SlidingWindow.RingSumIsCount | internal/ratelimit/ratelimit.go:55-73 | the ring's sum is the exact count of events logged in the last 60 seconds |
| SlidingWindow.RingOldestIsOldest | internal/ratelimit/ratelimit.go:55-73 | its oldest second is the first in the window with an event |
| SlidingWindow.AddingKeepsLog | internal/ratelimit/ratelimit.go:76-83 | adding to a cell logs one event, whatever stale second the cell held |
| SlidingWindow.AgingKeepsLog | internal/ratelimit/ratelimit.go:55-73 | zeroing stale cells loses nothing |
| SlidingWindow.NeverOverLimit | internal/ratelimit/ratelimit.go:89-106 | with a fixed rpm no 60 consecutive seconds admit more than rpm requests |
| SlidingWindow.RetryIsTight | internal/ratelimit/ratelimit.go:98-103 | refused at every earlier second, admitted at the retry second if nothing else was admitted |
| SlidingWindow.NeverEarly | internal/ratelimit/ratelimit.go:111-130 | for tokens the block stands until the retry second |
| SlidingWindow.RetryLiftsExactlyWhen | internal/ratelimit/ratelimit.go:111-130 | and ends there iff what came after the oldest second is under the limit |
| SlidingWindow.TokenRetryNotTight | internal/ratelimit/ratelimit.go:111-130 | witness: a later burst outlasts the token retry value |
| RateLimiter.SumAt | internal/ratelimit/ratelimit.go:55-73 | the in-place loop over the 60 cells |
| RateLimiter.Add | internal/ratelimit/ratelimit.go:76-83 | the in-place write of one cell |
| RateLimiter.Limiter.AllowRPM | internal/ratelimit/ratelimit.go:89-106 | admits iff fewer than rpm were admitted in the last 60 seconds; unlimited keys never touch the map |
| RateLimiter.Limiter.TPMBlocked | internal/ratelimit/ratelimit.go:111-130 | blocked iff the tokens of the last 60 seconds reach tpm; creates no entry |
| RateLimiter.Limiter.ObserveTPM | internal/ratelimit/ratelimit.go:134-141 | logs the tokens, or nothing without a policy |
| TomlStrings.UnescapeBody | internal/server/admin_config.go:994-1071 | unescaping undoes escaping on every string of Unicode code points |
| TomlStrings.ParseEscape | internal/server/admin_config.go:960-1071 | a printed basic string parses back (TOML v1.0.0, section "String") |
| TomlStrings.ScanRender | internal/server/admin_config.go:867-956 | scanning a printed array returns the list, whatever quotes, commas, brackets, hashes, backslashes or control characters it holds |
| TomlLayouts.ParseQuoted | internal/server/admin_config.go:960-992 | a basic or literal string parses to its value, with space and comments after it |
| TomlLayouts.ScanLayout | internal/server/admin_config.go:880-956 | a hand-written array of basic and literal strings scans to its values, with blanks, line breaks and comments between them and with or without a last comma |
| AuthKeys.EscapeBasic | internal/server/admin_config.go:1042-1071 | the printing loop |
| AuthKeys.UnescapeBasic | internal/server/admin_config.go:994-1040 | the unescaping loop with its error exits |
| AuthKeys.ParseBasicOrLiteral | internal/server/admin_config.go:960-992 | basic and literal strings, trailing comments, malformed text |
| AuthKeys.RenderStringArray | internal/server/admin_config.go:867-873 | the array printer |
| AuthKeys.ScanStringArray | internal/server/admin_config.go:880-956 | the array scanner, comments, line breaks and malformed arrays included |
| AuthKeys.NextKeysMeans | internal/server/admin_config.go:545-570 | the new list holds the old keys minus the removed ones, then new ones, without duplicates |
| AuthKeys.RemovedCountMeans | internal/server/admin_config.go:545-550 | the count of removed keys is the number of places that held one |
| AuthKeys.KeptInOrder | internal/server/admin_config.go:545-570 | the kept keys stay in their order |
| AuthKeys.KeysLineScans | internal/server/admin_config.go:590-612 | a written line rescans to its keys |
| AuthKeys.EditRescans | internal/server/admin_config.go:541-612 | the edited section rescans to exactly the new list, never emptied |
| AuthKeys.EditKeepsOtherLines | internal/server/admin_config.go:571-586 | every line outside the assignment stays, replaced or inserted; an insertion may add one blank last line |
| AuthKeys.ScanAuthFlatKeys | internal/server/admin_config.go:590-612 | finds the assignment and joins lines until it scans |
| AuthKeys.SpliceFlat | internal/server/admin_config.go:513-587 | the flat edit of a located section with its error exits and its counts of added and removed keys |
| AuthFile.EditedFileRescans | internal/server/admin_config.go:513-612 | on the whole file, with an [auth] section with keys, one without, or none: the edited file rescans to the old keys minus the removed ones followed by the new ones |
| AuthFile.EditsExactlyWhen | internal/server/admin_config.go:513-570 | the edit goes through iff every key to add is non-empty, unpadded and free of control characters, the list that is there can be read, no tables hold the keys and not all would go with none to come; the first bad key is reported by position |
| AuthFile.FindSection | internal/server/admin_config.go:472-496 | the header line of the named table and the next single-bracket header |
| AuthFile.HeaderForms | internal/server/admin_config.go:459-459 | every way to write a table header is recognised: one or more brackets, any space around brackets and name, a comment behind |
| AuthFile.SpliceAuthKeys | internal/server/admin_config.go:513-587 | the whole edit: refusals in order, the missing section, mixed shapes refused, the table shape handed over |
| TokenFileState.MergeIsFile | internal/oauth/store.go:117-124 | merging into a copy that is nowhere ahead yields the file |
| TokenFileState.SyncMatchesFile | internal/oauth/store.go:78-113 | a sync makes the resident map equal the file |
| TokenFileState.PutUpdatesDisk | internal/oauth/store.go:130-183 | an atomic `Put`, however stale its process, is one update of the shared map |
| TokenFileState.NewWorldInv | internal/oauth/store.go:53-70 | any number of fresh processes, over no file or one already there, satisfy the invariant the run theorems start from |
| TokenFileState.StoreRefinesMap | internal/oauth/store.go:78-183 | any number of processes refine one shared map over every run, and no resident stamp is ever ahead of the disk's |
| TokenFileState.DiskStampsNeverDecrease | internal/oauth/store.go:78-183 | no key is lost from disk and no key's stamp there decreases |
| TokenFileState.GetIsBehindDisk | internal/oauth/store.go:160-169 | a read that re-checks returns what is on disk; one within the second may be older, never newer |
| TokenStaleness.GetLagsByASecondAtMost | internal/oauth/store.go:160-169 | over any run of all processes: what was on disk more than a second before a read, the read returns, or a newer token of the key |
| TokenFileState.UndisturbedCommitIsPut | internal/oauth/store.go:130-156 | nothing written in the gap: the two halves are one `Put` |
| TokenFileState.SecondSyncMerges | internal/oauth/store.go:78-124 | what the second sync of a `Put` leaves after any Puts of others: all their other tokens, and of the key the newer |
| TokenFileState.BetweenSyncsExactly | internal/oauth/store.go:117-140 | so the Puts of others are absorbed as in some serial order, unless the key's old token carries the very reading of the `Put` and others changed only other keys |
| TokenFileState.TieLosesPut | internal/oauth/store.go:117-124 | witness: the second sync takes back a `Put` whose reading ties with the old token's |
| TokenFileState.OvertakenCommitExactly | internal/oauth/store.go:130-156 | with any Puts, syncs and gets in the gap, the file holds what all the Puts leave in some serial order iff those in the gap left every other key's token as it was |
| TokenFileState.OvertakenLater | internal/oauth/store.go:130-156 | once the clock has moved on since the last write: iff every Put in the gap was for the same key |
| TokenFileState.OvertakenByOne | internal/oauth/store.go:130-156 | for one overtaking Put at any reading: iff it was for the same key or wrote the very token that was there |
| TokenFileState.OvertakenTokenReturns | internal/oauth/store.go:117-156 | a process that still holds an overtaken token writes it back with its next Put |
| TokenFileState.OvertakenCommitLosesUpdate | internal/oauth/store.go:134-150 | witness: another key written in the gap is gone from disk |
| TokenStore.TokenCache.SyncNow | internal/oauth/store.go:78-113 | the in-place sync |
| TokenStore.TokenCache.MergeIn | internal/oauth/store.go:117-124 | the in-place merge, in any iteration order |
| TokenStore.TokenCache.PersistNow | internal/oauth/store.go:130-156 | sync, rewrite, remember the new stamp |
| TokenStore.TokenCache.PutToken | internal/oauth/store.go:174-183 | the write |
| TokenStore.TokenCache.GetToken | internal/oauth/store.go:160-169 | the read with its hot re-check |

## Left out

- Account runs (`startRun`, `endRun`): configuration never enables them (internal/server/accounts.go:70-86), so `AccountRunMax` is 0 throughout.
- `wallStrike`, `BenchModel` and `ModelBenched`: small counters of their own; the router reads only whether a model is benched, which is an input of each leg.
- `CarryInvalidated`, pool listings and the p2c score formula: copying and measurement; scores and decode speeds are arbitrary inputs.
- TokenBuckets.TokenBucket.Take: does not model float64 rounding; tokens are exact scaled integers, and only the truncation of the refill instant is kept.
- PoolRuns.GrantBudget: bounds charged grants only; `BudgetExactlyWhen` says for which rates those are all grants.
- PoolRuns.LadderBench: does not model the overflow of a 64-bit duration by an extreme configured base.
- PoolRuns.LiveCountsCallsInFlight: follows `begin` and `end` in charging the first slot of a weighted account only; `SpreadsExactlyWhen` says when that costs.
- PoolObject.AccountPool.Invalidate: stamps all slots of the account with one reading; the source reads the clock once per slot, so their stamps may lie nanoseconds apart.
- Clock readings are taken to be non-decreasing in lock order.  The source reads some of them just before it takes the lock; a stall between the two is not modelled.
- Backoff and retry_forever wait lengths, the Retry-After stamps, the error texts and the alias walk of `Resolve`: no property proved here depends on them.
- Fallback.ExecuteRequest: takes a finite script of upstream turns; a run that outlasts its script ends as Pending, and every theorem is about all such prefixes.
- Fallback.GatedLiftsBudget: whether the pool hands out an account is a free input of each turn. A gated 403 benches its account, so with a single account the witness needs that bench to end before the next pick; `LegBudgetExactlyWhen` is the condition without that.
- The predicates of the upstream error type (retryable, region-locked, fallbackable and so on) are free booleans: internal/types is not part of this model.
- Reorder.ApplyVerdict: case folding is an arbitrary function, the option arrives trimmed and folded, and the evaluator call itself is not modelled.
- Keyword regexes and the collection of signals from a request body: the classifier starts from the signals.
- Tier globs and the provider lookup: a target's tier is a map entry or absent.
- SHA-256 composite keys are the tuple (scope, key, body hash), taken as injective; the NUL-joined key of the bucket table is a pair.
- The receiving side of an idempotency waiter and its context: delivery is what is sent on its channel.
- QuotaTracker.Tracker.Observe: does not model seeding from the store, flushing, `Inherit` or the parsing of a rolling duration, and counters are unbounded.
- QuotaWindows.WindowsTile: for an unanchored rolling window without a previous start the source returns a window starting now, so tiling there is relative to a grid origin.
- Durations are unbounded: the saturation of `time.Sub` beyond 292 years is not modelled.
- AuthFile.SpliceAuthKeys: hands the `[[auth.keys]]` table shape over as `Tables`; the rewriting of table blocks is not modelled.
- TomlStrings.ScanRender: strings are sequences of Unicode scalar values; invalid UTF-8 is not modelled.
- TokenFileState.StoreRefinesMap: assumes what the source relies on, that `Put` is atomic and that every write changes the file's time or size; `Delete`, I/O errors and the JSON text are not modelled.
- HTTP, streaming, saver filters, dashboards, catalogues and the vendor executors: I/O and plumbing outside the modelled core.
