# BRIDGE LLM Gateway: a verified model of its shared state and its JSON repair

The gateway lets many tenants' requests reach a few Ollama backends. Requests
run concurrently, in several replicas, and meet only in Redis: a budget counter
per tenant, model and period, a token bucket per tenant and model, and a circuit
breaker per backend and model. This project models those three stores, the
`_dispatch` pipeline that drives them, the routing that picks a backend, and the
text repair applied to model answers, and proves what they guarantee over every
interleaving, every trace and every input.

`dafny verify dfyconfig.toml` checks the whole project.

## How it is organised

| file | what it holds |
|---|---|
| `RedisKeys.dfy` | key and period encodings, and when two owners can share a key |
| `TokenBucket.dfy`, `RateLimiter.dfy` | the Lua script as a step on a bucket, theorems over traces of calls; the script and `check_and_consume` as methods over the shared hashes |
| `CircuitBreaker.dfy`, `Breaker.dfy`, `Health.dfy` | the breaker hash with its expiry, whole calls and command interleavings; the `CircuitBreaker` object; the health poller as its second writer |
| `Routing.dfy`, `FileOrder.dfy`, `Registry.dfy`, `Choice.dfy` | routing file to chain to filtered list; what the file's own fields decide; which backend serves |
| `Pipeline.dfy` | `_dispatch` as a state machine: one request moves between two awaits while any others are parked at theirs |
| `Accounting.dfy`, `Safety.dfy`, `Witnesses.dfy`, `Overshoot.dfy` | budget theorems, order of the pipeline, runs that break documented promises, and how far overshoot goes |
| `BudgetTracker.dfy`, `Service.dfy`, `Decisions.dfy` | the tracker and `_dispatch` as imperative code; each uninterrupted run of it is proved to be a run of the state machine; what it decides, read off the policies, counters and outcomes it meets |
| `JsonTokens.dfy`, `JsonRepair.dfy`, `RepairPlaces.dfy`, `JsonMeaning.dfy`, `JsonGaps.dfy`, `JsonDicts.dfy`, `PythonStrings.dfy`, `QuoteRepair.dfy` | the tokenizer, the merge of bare strings and where each token of its output comes from, JSON documents and their meaning, as member lists and as dicts, what numbers, true, false and null leave behind, Python's string codec, the quote repair |

Time is a real number of seconds and token amounts are exact reals. A provider
call comes back with token counts, a timeout or an error, as it pleases. In the
state machine the replies of the bucket, the clock, routing and the provider are
arbitrary, so its theorems hold whatever those components do. No Redis command
fails, no process dies half way, and only GatewayErrors are raised.

## Where the code and its documentation disagree

The model follows the code; each point is settled by a theorem below.

- The comment at `gateway/core/service.py:287-289` and ARCHITECTURE.md say a
  failed request's reservation is released. When `get_backends` raises, `status`
  still reads "success" and the guard skips the release: the reservation stays
  charged. `CounterMatchesLog` gives the exact gap between counter and usage log,
  and shows it gone under the guard the comment describes; `StrandedIff` says for
  which requests it happens, from routing file and breaker state.
- `gateway/budget/tracker.py:3-9` bounds overshoot by one in-flight request's
  worst case. For requests that reserve at least e and use at most g more than
  they reserve, that holds exactly when g is 0 or the cap is below 2e, so that
  no two reservations fit together (`OneInFlightIff`; `OneInFlightSameSizeIff`
  for requests of one size). In general overshoot stays within an allowance
  exactly when the allowance covers g for each of the cap / e reservations that
  fit (`AllowanceExact`).
- The same docstring says the reservation includes a prompt estimate. A chat
  request reserves `num_predict` alone (`gateway/core/service.py:149`) and
  settles prompt plus completion: with prompts of up to p tokens, overshoot
  stays within an allowance exactly when the allowance covers p for each
  reservation that fits (`ChatOvershootExact`). Had the prompt been reserved,
  the cap itself would hold (`CapHolds`).
- `gateway/routing/circuit_breaker.py:6-10` describes a half-open state: after
  the cooldown one probe, whose failure opens the breaker again. No code stores
  it. After the cooldown the breaker reads closed to everyone and counts from
  zero: failures open it again exactly when they reach the threshold
  (`ReopensIff`), so a failed probe does exactly when the threshold is one
  (`HalfOpenIff`). The docstring also promises opening after N failures in a
  row; a deadline left over from an earlier opening can delay that to 2N - 1
  (`OpeningBound`, `OpeningBoundIsSharp`, `NominalOpeningIff`).
- The repair's own docstring promises that all bare strings after a key's value
  are merged. That fails exactly for a text with a pair at odd depth in a chain
  k : a : b : ... followed by one: the loop has read that pair's key as a value
  (`RepairNormalForm`, `ChainKeepsBareString`).

## Model

| member | source | states |
|---|---|---|
| RedisKeys.EncodeInjective | gateway/budget/tracker.py:51-53 | budget, rate-limit and breaker keys of different owners never coincide, for any model text, colons included; only breaker keys need colon-free backend ids |
| RedisKeys.CircuitKeysMeet | gateway/routing/circuit_breaker.py:32-34 | without that restriction two breaker keys coincide exactly when one backend id runs past the other's colon and the models make up the difference |
| RedisKeys.PeriodKeyExact | gateway/budget/tracker.py:29-35 | two reservations share a period text exactly when same kind of period and same month (and day, if daily); never "unknown" |
| RedisKeys.PeriodReads | gateway/budget/tracker.py:29-35 | a period text read back in decimal gives the date's year, month and, for a daily budget, day, dashes between |
| RedisKeys.BudgetKeyReads | gateway/budget/tracker.py:51-53 | a budget key reads back as its family, the 36 characters of the tenant, the model and the period |
| RedisKeys.RateLimitKeyReads | gateway/ratelimit/token_bucket.py:31-33 | a rate-limit key likewise |
| RedisKeys.CircuitKeyReads | gateway/routing/circuit_breaker.py:32-34 | a breaker key likewise, with backend and model |
| TokenBucket.TokensInRange | gateway/ratelimit/scripts/token_bucket.lua:38-46 | stored and reported tokens stay within 0 and the burst on every trace, clocks stepping back included |
| TokenBucket.RateBound | gateway/ratelimit/scripts/token_bucket.lua:33-52 | any contiguous run of calls in any trace lets through at most burst + rate x forward clock movement inside the run |
| TokenBucket.RateBoundMonotone | gateway/ratelimit/scripts/token_bucket.lua:33-52 | with clocks that never step back, that is burst + rate x length of the run |
| TokenBucket.ClockBackEarns | gateway/ratelimit/scripts/token_bucket.lua:33-38 | the forward movement in that bound cannot be replaced by elapsed time: with a clock stepping back d seconds, an emptied bucket grants d seconds' refill at the instant it was emptied |
| TokenBucket.RejectedCallsAreFree | gateway/ratelimit/scripts/token_bucket.lua:38-52 | key expiry aside, leaving out any set of rejected calls changes no other call's decision, remaining tokens or retry hint |
| TokenBucket.ExpiryUnobservableIff | gateway/ratelimit/scripts/token_bucket.lua:53 | losing the key after an idle hour shows in no trace if and only if burst <= 60 x requests per minute |
| TokenBucket.RejectedFreeIff | gateway/ratelimit/scripts/token_bucket.lua:33-53 | with expiry, where a rejected call renews the hour, leaving out rejected calls changes nothing on every trace if and only if burst <= 60 x requests per minute |
| TokenBucket.RetryHintExact | gateway/ratelimit/scripts/token_bucket.lua:44-50 | after a rejection with hint d ms, with only rejections in between, the same request passes d ms later and not d - 1 ms later; a cost above the burst never passes |
| TokenBucket.HeaderAlmostCovers | app.py:258 | the Retry-After header is at most half a second short of the hint, and covers it exactly when the rounding did not go down |
| RateLimiter.TokenBucketLimiter.EvalScript | gateway/ratelimit/scripts/token_bucket.lua:23-55 | the script, statement by statement, makes the step of the expiring trace theorems: a bucket idle for an hour is found missing |
| RateLimiter.TokenBucketLimiter.CheckAndConsume | gateway/ratelimit/token_bucket.py:35-65 | raises RateLimitExceeded with the hint in seconds exactly when the script rejects, expiry included, and moves no other tenant's or model's bucket |
| CircuitBreaker.TripHolds | gateway/routing/circuit_breaker.py:54-59 | a failure that reaches the threshold keeps the breaker open for exactly the cooldown, not at all if that is not positive; then the missing key reads closed |
| CircuitBreaker.OpenRearms | gateway/routing/circuit_breaker.py:51-56 | a failure recorded while the breaker is open trips it again and starts a whole cooldown from then |
| CircuitBreaker.SuccessCloses | gateway/routing/circuit_breaker.py:47-49 | from any state a success leaves the breaker closed with no failure counted |
| CircuitBreaker.FailureCounts | gateway/routing/circuit_breaker.py:51-56 | a failure counts one more, and a closed breaker opens if and only if the count reaches the threshold |
| CircuitBreaker.ReopensIff | gateway/routing/circuit_breaker.py:36-56 | after a trip and its cooldown, failures open the breaker again if and only if there are threshold of them, whatever came before |
| CircuitBreaker.HalfOpenIff | gateway/routing/circuit_breaker.py:6-10 | a failed probe after the cooldown opens the breaker again, as documented, if and only if the threshold is one |
| CircuitBreaker.OpeningBound | gateway/routing/circuit_breaker.py:47-56 | from any state, 2 x threshold - 1 failures with no success open the breaker, whenever expiry falls |
| CircuitBreaker.OpeningBoundIsSharp | gateway/routing/circuit_breaker.py:47-56 | after an opening and a success, 2 x threshold - 2 failures can pass without opening it |
| CircuitBreaker.NominalOpeningIff | gateway/routing/circuit_breaker.py:6-7 | after a success, threshold failures in a row open the breaker if and only if the stale deadline does not fall between the first and the last |
| CircuitBreaker.NeverStuckOpen | gateway/routing/circuit_breaker.py:47-59 | under every interleaving of the single Redis commands, an open key without expiry has a caller about to set one, and a cooldown after the last EXPIRE a breaker with no such caller reads closed |
| CircuitBreaker.CommandsMakeFail | gateway/routing/circuit_breaker.py:51-56 | run undisturbed, the three commands are the whole call used in the opening theorems |
| CircuitBreaker.SuccessSticksIff | gateway/routing/circuit_breaker.py:47-56 | a recorded success keeps the breaker closed until a new failure is counted, however the callers at work finish, if and only if none of them stands between HINCRBY and HSET |
| CircuitBreaker.SuccessOverwritten | gateway/routing/circuit_breaker.py:47-56 | the smallest schedule where it does not: a success between HINCRBY and HSET is lost, the breaker ends open with no failure counted |
| Breaker.BreakerStore.IsAvailable | gateway/routing/circuit_breaker.py:36-45 | true exactly when the live hash does not read "open" |
| Breaker.BreakerStore.RecordSuccess | gateway/routing/circuit_breaker.py:47-49 | closes and resets this backend and model's hash, keeps its expiry, touches no other key |
| Breaker.BreakerStore.RecordFailure | gateway/routing/circuit_breaker.py:51-56 | the three commands in order amount to one recorded failure on this key and no other |
| Health.HealthPoller.CheckOne | gateway/routing/health.py:65-85 | one probe is one recorded success or failure on its pair's breaker |
| Health.HealthPoller.PollOnce | gateway/routing/health.py:56-63 | every configured chat pair, then every embedding pair, is marked once in order, each by its own probe's answer at its own time |
| Health.ProbesExact | gateway/routing/health.py:56-63 | a round probes exactly the configured pairs, enabled or not |
| Health.DeadBackendIsTakenOut | gateway/routing/health.py:51-85 | a pair that fails every probe, with no success noted by anyone, is opened within 2 x threshold - 1 rounds of polling, whatever other pairs answer from round to round and whatever else requests note in between |
| Routing.StableSortExact | gateway/routing/registry.py:65 | the sorted entries are a permutation in strict (priority, place in the file) order |
| Routing.Resolve | gateway/routing/registry.py:62-81 | every model of the section, and no other, maps to its chain |
| Routing.RoutedExact | gateway/routing/registry.py:110-124 | the routed list is exactly the known, enabled, non-open entries, once each, in (priority, place) order |
| Routing.RankIsIndex | gateway/routing/registry.py:62-81 | an entry's index in the routed list is the number of eligible entries before it |
| FileOrder.RankFollowsFile | gateway/routing/registry.py:65 | of two eligible entries the one with the smaller number in the file ranks first, 0 standing for a missing number, the one written first on a tie |
| FileOrder.MissingPriorityIsZero | gateway/routing/registry.py:65-69 | writing 0 for missing priorities changes no chain |
| FileOrder.EligibleReads | gateway/routing/registry.py:44-53 | an entry may serve if and only if its backend is configured, not marked disabled, and up |
| FileOrder.RoutedReads | gateway/routing/registry.py:66-81 | a routed backend carries its entry's priority and model name, the requested model where the entry names none |
| FileOrder.SliceReads | gateway/core/service.py:242 | the attempts are the first max_failover_attempts of the list, or all but the last -n for a negative n |
| Routing.ServingBackend | gateway/core/service.py:238-268 | the first success within max_failover_attempts is the least winner by (priority, place), and there is none exactly when no entry wins |
| Routing.LongEnoughTriesAll | gateway/core/service.py:242 | with at least as many attempts as entries, a request fails only if every eligible backend failed |
| Registry.BackendRegistry.Filtered | gateway/routing/registry.py:110-124 | the loop over breaker lookups answers the enabled, non-open part of the chain, or AllProvidersUnavailable when that is empty |
| Registry.AnswerExact | gateway/routing/registry.py:110-124 | get_backends answers exactly the configured, enabled backends whose breaker for the model reads closed, and fails exactly when there is none |
| Choice.EndToEndChoice | gateway/core/service.py:238-268 | routing file, breaker state and failover loop together: get_backends raises exactly when no entry is eligible, else the server is the least winner |
| Choice.DispatchServesLeast | gateway/core/service.py:226-316 | a dispatch that reaches routing succeeds exactly when some eligible entry within the attempt limit has a call that succeeds; the backend its answer names is the first of those, and none of them has a smaller number in the file |
| Choice.StrandedIff | gateway/core/service.py:238-292 | a request past policies, bucket and budget ends as provider_error with its whole estimate left on the counter if and only if no known, enabled, non-open entry is configured for its model; else the counter gains the tokens used, none on failure |
| Budget.IncrByMirrors | gateway/budget/tracker.py:51-53 | an INCRBY on the flat keyspace moves one tenant, model and period's counter and no other |
| Budget.BudgetTracker.Reserve | gateway/budget/tracker.py:55-91 | charges first; refuses and undoes exactly when a blocking cap is passed, else returns a reservation on today's period |
| Budget.BudgetTracker.Reconcile | gateway/budget/tracker.py:93-99 | moves the reservation's own counter by actual minus reserved, and sends nothing when they are equal |
| Budget.BudgetTracker.Release | gateway/budget/tracker.py:101-105 | gives the whole reservation back on its own counter |
| Accounting.CounterConservation | gateway/budget/tracker.py:55-105 | in every reachable state each counter is the sum of per-request contributions fixed by phase, on the period chosen at reservation |
| Accounting.OvershootBound | gateway/budget/tracker.py:71-99 | on a blocking key, admitted requests hold at most the cap plus what requests settled since the last admission used above their reservations; the counter adds only rejected requests not yet undone |
| Accounting.CapHolds | gateway/budget/tracker.py:71-99 | if no request ever uses more than it reserved, admitted requests stay within the cap |
| Accounting.AdmissionExact | gateway/budget/tracker.py:74-83 | a reservation passes if and only if what admitted requests hold, plus what rejected ones have not yet given back, leaves room for it |
| Accounting.CounterMatchesLog | gateway/core/service.py:226-316 | with nothing in flight, counter = usage log + reservations of requests for which get_backends raised; with the guard the comment describes, counter = usage log |
| Accounting.CounterExactIff | gateway/core/service.py:238-290 | as written, counter = usage log if and only if no request holding a reservation failed at get_backends |
| Safety.EveryHistoryLawful | gateway/core/service.py:210-316 | every history of every interleaving keeps the pipeline's order, request by request |
| Safety.CallsArePaidFor | gateway/core/service.py:210-251 | a provider is called only for a request with both policies configured, a consumed bucket token and a reservation neither settled nor released |
| Safety.ClosedOnce | gateway/core/service.py:270-290 | no request closes its reservation twice: settle, release and undo exclude each other; settling and releasing are on the one key it reserved on, undo only without a reservation |
| Safety.OneRecordEach | gateway/core/service.py:295-316 | each finished dispatch has exactly one usage record, keyed on the requested model and the reservation's period, "success" exactly when it settled and for those tokens |
| Witnesses.OvershootGrowsWithConcurrency | gateway/budget/tracker.py:3-9 | for every cap n and use u, n requests admitted for one token each can settle at n x u |
| Witnesses.WorstCaseReached | gateway/budget/tracker.py:71-99 | with reservations of e under the cap and uses up to u >= e, some run ends with cap + (cap / e) x (u - e) held |
| Overshoot.ConcurrentBound | gateway/budget/tracker.py:71-99 | requests that reserve at least e and use at most g more than they reserve never hold more than cap + (cap / e) x g, however they interleave |
| Overshoot.AllowanceExact | gateway/budget/tracker.py:71-99 | their overshoot stays within an allowance in every run if and only if the allowance covers (cap / e) x g |
| Overshoot.OneInFlightIff | gateway/budget/tracker.py:3-9 | the documented bound of one request's worst case, g, holds if and only if g = 0 or cap < 2e |
| Overshoot.OneInFlightSameSizeIff | gateway/budget/tracker.py:3-9 | for requests that all reserve e and use at most u, it holds if and only if u <= e or cap < 2e |
| Overshoot.ChatOvershootExact | gateway/core/service.py:142-153 | chat requests with num_predict >= e as reservation and completion cap, and prompts of at most p tokens, overshoot within an allowance in every run if and only if it covers (cap / e) x p |
| Witnesses.ReservationStranded | gateway/core/service.py:285-292 | as written, a request for which get_backends raises finishes with its whole estimate still charged and no token on record |
| Service.GatewayService.Failover | gateway/core/service.py:240-268 | the calls made are the shortest prefix of the attempts ending in a success, or all; each marks its backend's breaker once; failovers are calls - 1; the error kept is the last failed call's |
| Service.GatewayService.Dispatch | gateway/core/service.py:190-316 | policies, bucket, budget, routing and the backends' outcomes decide answer, error and recorded status exactly; the one bucket, the tried backends' breakers and this request's counter move, the counter by the tokens used, by the estimate if get_backends raised, else not at all; an uninterrupted run is this request's run of the state machine from any shared state and ends with one record that agrees with the answer |
| Decisions.PolicyReads | gateway/core/service.py:74-88 | the tenant's entry for the model is found, else its "*" entry, else none, by membership in the map |
| Decisions.ModelOverridesWildcard | gateway/core/service.py:74-88 | an entry for the model overrides the tenant's wildcard, whichever was written last |
| Decisions.OthersPoliciesIgnored | gateway/core/service.py:74-88 | entries of other tenants, or for other models, never count |
| Decisions.NotEntitledIff | gateway/core/service.py:210-212 | a dispatch answers ModelNotEntitled if and only if, in one of the two maps, both the model's and the "*" entry are missing |
| Decisions.RequestCostsOne | gateway/core/service.py:214-220 | a request passes the bucket if and only if one token is there, and takes exactly one |
| Decisions.LevelReads | gateway/ratelimit/token_bucket.py:48-54 | what is there: requests_per_minute / 60 tokens more each second up to the burst, and the burst after an hour without a call |
| Decisions.BurstAtOnce | gateway/core/service.py:214-220 | of any number of requests at one instant on a fresh bucket, exactly the first `burst` are granted |
| Decisions.BarredReads | gateway/core/service.py:210-236 | which requests are turned away, in order: no policy; less than one token; counter plus estimate above the maximum of a blocking policy |
| Decisions.RetryAfterReads | gateway/ratelimit/token_bucket.py:56-65 | the wait reported is the time to the next token, rounded up to the millisecond |
| Decisions.AnswerReads | gateway/core/service.py:238-268 | the answer is that of the first attempt that was served, with its own tokens and model, after as many failovers as attempts before it; without one the error is ProviderTimeout exactly when the last attempt timed out |
| Decisions.StatusReads | gateway/core/service.py:214-293 | each status is recorded for exactly one cause |
| Decisions.BlockCapReads | gateway/core/service.py:82-88 | the cap of the budget theorems is the maximum of the policy found, if that policy blocks |
| Decisions.ServerReadsClosed | gateway/core/service.py:255 | after the loop, the breaker of the backend that served reads closed with nothing counted |
| Decisions.FailedCallCounts | gateway/core/service.py:257-265 | the breaker of a backend whose call failed has one failure more and reads open if and only if that reaches the threshold |
| Decisions.UncalledUnmarked | gateway/core/service.py:242-265 | a breaker no call went to is as it was |
| JsonTokens.TokenizeConcat | utils/clean_gen_response_from_image.py:67-69 | tokenizing the concatenation of any token list returns it |
| JsonTokens.TokenExact | utils/clean_gen_response_from_image.py:68 | a token is one of the six marks, or a quote, any steps of [^"\\] or a backslash with a character but newline, and a quote |
| JsonTokens.FindallTakes | utils/clean_gen_response_from_image.py:68-69 | where a token starts, tokenizing takes it |
| JsonTokens.FindallSkips | utils/clean_gen_response_from_image.py:68-69 | where none starts, it skips one character |
| JsonRepair.RepairTrailingBareStrings | utils/clean_gen_response_from_image.py:51-110 | the two nested index loops compute the repair the theorems are about, raising where json.loads does |
| RepairPlaces.RepairConserves | utils/clean_gen_response_from_image.py:77-110 | the repair returns a token list if and only if that list stands, in order and without a gap, for the whole input: each value for the longest run of bare strings after it, joined by newlines, every other token for itself; where no list does, it raises |
| RepairPlaces.MergedComeApart | utils/clean_gen_response_from_image.py:101 | cut at its line feeds, a merged value gives back the value and the bare strings, if none held a line feed |
| JsonRepair.RepairTextIdempotent | utils/clean_gen_response_from_image.py:51-110 | wherever decoding does not raise, a second repair returns its input unchanged |
| RepairPlaces.RepairNormalForm | utils/clean_gen_response_from_image.py:56-62 | the output has a pair followed by a comma and an un-keyed string if and only if the input has one at odd depth of a chain |
| RepairPlaces.ChainKeepsBareString | utils/clean_gen_response_from_image.py:56-62 | the smallest such input |
| JsonMeaning.RepairPreservesMeaningIff | utils/clean_gen_response_from_image.py:67-110 | for every text that loads, the repaired text loads to the same value if and only if its scalars are all strings |
| PythonStrings.PythonIsSound | utils/clean_gen_response_from_image.py:89-104 | json.loads and json.dumps on strings, escapes and surrogates included, meet the laws the repair theorems assume |
| PythonStrings.BareStringMerged | utils/clean_gen_response_from_image.py:51-110 | {"k":"a","b"} is repaired to {"k":"a\nb"}, for all printable k, a, b without quotes and backslashes |
| PythonStrings.EscapesSpelled | utils/clean_gen_response_from_image.py:104 | the short escapes json.dumps writes, character by character |
| PythonStrings.EscapesRead | utils/clean_gen_response_from_image.py:89-100 | the escapes json.loads reads, and no others |
| PythonStrings.LoadsRefusesControls | utils/clean_gen_response_from_image.py:89-100 | a raw control character anywhere in a string makes json.loads raise |
| JsonGaps.RepairedLoadsIff | utils/clean_gen_response_from_image.py:67-110 | the repaired text loads at all if and only if every number, true, false and null stands alone in an array, and then to the same value with those arrays empty |
| JsonDicts.PreservedIff | utils/clean_gen_response_from_image.py:67-110 | as Python loads it, a later member overwriting an earlier one of the same key, the value comes back if and only if every such scalar stands alone in an array and none is left in what Python loads; without repeated keys, if and only if there is none |
| PythonStrings.PythonMeaningIff | utils/clean_gen_response_from_image.py:67-110 | both meaning theorems with Python's own codec in place of the assumed one |
| PythonStrings.PythonIdempotent | utils/clean_gen_response_from_image.py:51-110 | the idempotence theorem with Python's own codec |
| QuoteRepair.FindQuote | utils/clean_gen_response_from_image.py:133-139 | finds the last quote of the window not preceded by a backslash, the window's first character excepted, or reports that there is none |
| QuoteRepair.CandidateExact | utils/clean_gen_response_from_image.py:132-139 | a candidate is a quote at most five characters before the error position with no backslash before it, the first character looked at excepted |
| QuoteRepair.EdgeQuoteTaken | utils/clean_gen_response_from_image.py:135-137 | with a backslash just outside those five, an escaped quote is picked |
| QuoteRepair.RepairUnescapedQuotes | utils/clean_gen_response_from_image.py:113-143 | with the k-th text defined by escaping the last candidate k times: returns a text if and only if it is one of the first max_attempts and the parser accepts it, re-raises if and only if one of them cannot be treated, gives up if and only if all could |
| QuoteRepair.OnlyBackslashesAdded | utils/clean_gen_response_from_image.py:142 | no other character is added, lost or moved, and the length grows by the number of steps |

## Left out

- Redis failures, process crashes and exceptions that are not GatewayErrors: assumed absent; a crash between two commands leaves what the machine's states between two awaits show.
- The breaker and the buckets are not part of the state machine's state: their replies are arbitrary inputs there, and have their own theorems. The breaker lookups of one get_backends call are one step, and the three commands of record_failure are one step; CircuitBreaker.dfy interleaves them.
- Service.GatewayService.Dispatch: runs alone from an arbitrary shared state, with one time for all breaker lookups of a request; interleaving is the state machine's part.
- Service.GatewayService.Dispatch: the in-memory result body, latency, metrics and UUIDs are not modelled; a request is known by its arrival number.
- handle_request and handle_embedding_request: they choose the estimate (num_predict, or a quarter of the input's characters, at least 1), the chat or embedding chains, and zero completion tokens for embeddings; the theorems hold for every estimate, chain and token count.
- JsonMeaning.RepairPreservesMeaningIff: numbers, true, false and null are compared by spelling and any bare run is accepted in their place; objects are member lists, so a repeated key is kept apart; JsonDicts.PreservedIff compares dicts instead.
- PythonStrings.PythonIsSound: raw lone surrogates cannot stand in an input text here, as Dafny's characters exclude them; decoded texts may hold them.
- QuoteRepair.RepairUnescapedQuotes: json.loads is an oracle, its error positions are taken as given.
- `models_by_backend`, base_url and keep_alive in from_yaml, and YAML parsing: no routing decision reads them.
- max_requests, max_cost_usd and alert_threshold_pct: in the policy model but read by nothing in the tracker.
- strip_markdown_code_blocks and clean_json_string: single regular-expression substitutions.
- HTTP routes, authentication, the database, `/v1/usage`, seeding, observability, the Ollama adapter, tree generation and the docker CLI: plumbing or easy folds over the log.
- Floating-point rounding and Redis/Lua number formatting: exact reals stand in.
