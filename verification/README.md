# pokt-tools core, modelled in Dafny

pokt-tools is a dashboard for Pocket Network servicer nodes. It has a React UI
and two Go back ends. The monitoring service pairs a node's claims with its
proofs and summarises rewards by month. The indexing service copies blocks,
transactions, nodes and parameters from the chain into a store.

This project models the sequential logic under the rendering, HTTP and SQL
code:

- **Throttled request runner (UI).**
  - The progress reducer: `createThrottledProgress`, `updateThrottledProgress` and `reducer`.
  - The bounded-in-flight scheduler `throttleRequests`, as a state machine whose settle steps are chosen freely.
  - The monthly-transactions tasks that feed the runner, and the newest-first order of their rows.
- **Reward aggregation (monitoring service).**
  - Session keys, the paging loop that collects claims and proofs, and confirmation of claims.
  - Month buckets with their totals, weekday counters and gap statistics.
  - The parameters at a height, and the expire height of a transaction.
  - The monthly-rewards, account-transactions and node endpoints, and the request decoders.
  - `ParamGroup.Get`, `AllParams.Validate`, the chain table, the confirmed-only POKT sum and the `total_proofs` parser.
- **Repositories and read-through caches.**
  - The monitoring in-memory block and block-time repos, and the indexing in-memory block store.
  - The block, parameter, transaction and node caches of the indexing service.
- **Indexer paging and planning.**
  - The page sequences of the block-transaction and node walks, and the conversion of the provider's records.
  - The provider-to-map conversion of parameter groups.
  - The job creator's height queues, and the block-time fetcher's batches.
- **UI decision rules.**
  - Node status colour and text, pending relays and address resolution.
  - Bookmarks and address labels.
  - The active path of the menu and the buttons it shows.
  - Error-log paging and the collapsing of repeated logs.
  - Ping colours.
  - The per-chain relay slices and the row order of a month.
  - The transaction row text.
  - Time units, the 10/30/90-day toggle and the average POKT per day.

Each source component is one Dafny module with immutable datatypes and pure
functions. The caches and repos are explicit state transitions, with the
backing service and the repository faults as parameters. Everything outside
the process becomes a function parameter: the chain provider, local storage,
`Date.now`, float parsing and Go's map iteration order. Loops that run until
the provider says stop carry a fuel bound.

Shared helper modules:

- `Wrappers` holds `Option` and `Result`.
- `Seqs` holds filters, sums, `indexOf` and first-occurrence removal.
- `Sorting` holds a stable insertion sort.
- `Text` holds Go's `strconv` decimal parsing, `%d` formatting and the fixed-width integer conversions.
- `Js` holds truthiness, `Math.round`, `substring` clamping and the last path segment.

Where the prose description of the system and the code disagree, the model
follows the code:

- `initialise` leaves `loading` false, even when requests are queued.
- A failed price lookup dispatches a failure and then a success, so the throttle's counts can exceed `totalRequests`.
- `BlockTransactions` skips pages (see Findings).

## Model

| member | source | states |
|---|---|---|
| Throttle.Create | ui/src/hooks/useThrottleRequests.tsx:53-61 | a fresh progress records the requested total, nothing settled, 0 percent, and is not loading |
| Throttle.Update | ui/src/hooks/useThrottleRequests.tsx:66-95 | a truthy error or value is appended at the end of its list and only then; the total is kept; percentage and loading agree with the new counts |
| Throttle.Reduce | ui/src/hooks/useThrottleRequests.tsx:115-135 | initialise resets to the new total with nothing settled and loading false; success touches only values and failure only errors; the total never changes otherwise |
| Throttle.ReduceConsistent | ui/src/hooks/useThrottleRequests.tsx:119-133 | after an action, percentage and loading agree with the counts, except right after initialising a non-empty batch, when loading is false although nothing has settled |
| Throttle.PercentageBounds | ui/src/hooks/useThrottleRequests.tsx:78-81 | while no more than the total has settled the percentage stays in 0..100, and reaches 100 when all have settled |
| Throttle.PercentageMonotone | ui/src/hooks/useThrottleRequests.tsx:78-81 | more settled requests never lower the percentage |
| Throttle.RoundedFullWhileLoading | ui/src/hooks/useThrottleRequests.tsx:78-86 | half-up rounding shows 100 percent with 999 of 1000 settled, while loading is still true |
| Throttle.SettlementWithoutVisibleProgress | ui/src/hooks/useThrottleRequests.tsx:78-81 | one settled request in 1000 still shows 0 percent |
| Throttle.ApplyWithinBatch | ui/src/hooks/useThrottleRequests.tsx:123-133 | `Apply`, the reducer folded over a run of success and failure actions, keeps the total and appends exactly the truthy values and errors, in dispatch order, after whatever the stored arrays already hold |
| Throttle.ApplyMonotone | ui/src/hooks/useThrottleRequests.tsx:66-95 | within a batch the percentage never goes down |
| Throttle.BatchCompletes | ui/src/hooks/useThrottleRequests.tsx:173-180 | queueing n requests and settling each once with a truthy outcome ends with n settled, loading false and 100 percent (0 for an empty batch) |
| Throttle.ContributionsConcat | ui/src/hooks/useThrottleRequests.tsx:123-133 | the values and errors a run of actions contributes split over concatenation of runs |
| Throttle.ApplySplit | ui/src/hooks/useThrottleRequests.tsx:115-135 | `Apply` over a run of actions in two parts equals `Apply` over the whole run |
| ThrottleScheduler.Limit | ui/src/hooks/useThrottleRequests.tsx:29-31 | the in-flight cap is at least 1 and at least the requested maximum |
| ThrottleScheduler.StepInv | ui/src/hooks/useThrottleRequests.tsx:18-34 | every enabled `Step` of `throttleRequests` keeps the scheduler invariant `Inv`, and only a rejected settle adds to the failed set |
| ThrottleScheduler.RunInv | ui/src/hooks/useThrottleRequests.tsx:18-34 | every state that `Run` reaches satisfies `Inv`, and some request failed exactly when a rejected settle occurred |
| ThrottleScheduler.InFlightBound | ui/src/hooks/useThrottleRequests.tsx:25-31 | never more than max(limit, 1) requests are started and not yet removed; with a limit of at most 1 they run one at a time |
| ThrottleScheduler.StartOrder | ui/src/hooks/useThrottleRequests.tsx:18-25 | requests start in array order: the first `next` are exactly the fulfilled and in-flight ones, and the queue stays in start order |
| ThrottleScheduler.ResolvedMeansAllFulfilled | ui/src/hooks/useThrottleRequests.tsx:21-34 | if the run resolves, every request was fulfilled and none rejected |
| ThrottleScheduler.FulfilOrderOnce | ui/src/hooks/useThrottleRequests.tsx:21-24 | the fulfilling settle events name each fulfilled request exactly once and no other request |
| ThrottleScheduler.ResolvedFulfilsEachOnce | ui/src/hooks/useThrottleRequests.tsx:15-35 | in a run that resolves, the fulfilling settle events name the requests 0 … n−1 each exactly once |
| ThrottleScheduler.RejectedMeansFailure | ui/src/hooks/useThrottleRequests.tsx:21-34 | the run rejects only after some request rejected, and a rejection rules out resolving |
| ThrottleScheduler.FulfilAll | ui/src/hooks/useThrottleRequests.tsx:15-35 | there is a schedule in which every request fulfils and the run resolves |
| ThrottleScheduler.NoDeadlock | ui/src/hooks/useThrottleRequests.tsx:15-35 | no reachable state is stuck: the run has resolved or rejected, or the function can take its next step, or the oldest queued request can still fulfil |
| ThrottleScheduler.TerminalOutcome | ui/src/hooks/useThrottleRequests.tsx:15-35 | once no event is enabled, the run has resolved exactly when no request rejected and rejected exactly when one did |
| ThrottleScheduler.StepPotential | ui/src/hooks/useThrottleRequests.tsx:18-34 | every step lowers the count of unstarted requests, unsettled requests and the unfinished loop |
| ThrottleScheduler.TraceBound | ui/src/hooks/useThrottleRequests.tsx:15-35 | every valid trace has at most 2n + 1 events: n + 1 steps of the function and one settlement per request |
| ThrottleScheduler.RejectionStopsStarting | ui/src/hooks/useThrottleRequests.tsx:21-31 | a rejected request stays in the queue and no further request is started |
| MonthlyTransactions.RunTask | ui/src/components/MonthlyTransactions.tsx:18-34 | a task always fulfils and dispatches one success carrying its transaction, preceded by one failure when the price lookup threw; the price is looked up only from the first priced date on |
| MonthlyTransactions.Tasks | ui/src/components/MonthlyTransactions.tsx:18 | one task per transaction, in input order |
| MonthlyTransactions.DispatchContributions | ui/src/components/MonthlyTransactions.tsx:28-33 | the finished tasks contribute one value each and one error per failed lookup |
| MonthlyTransactions.BatchOutcome | ui/src/components/MonthlyTransactions.tsx:17-37 | whenever the finished tasks are a permutation of the tasks, the batch ends with one value per transaction, one error per failed lookup, and settled = n + failures |
| MonthlyTransactions.ResolvedBatchOutcome | ui/src/components/MonthlyTransactions.tsx:17-37 | in every throttle run that resolves, the tasks finish in an order that is a permutation of the tasks, so the batch ends with one value per transaction, one error per failed lookup, and settled = n + failures |
| MonthlyTransactions.FailedLookupOvercounts | ui/src/components/MonthlyTransactions.tsx:24-33 | one transaction whose lookup throws settles twice and shows 200 percent |
| MonthlyTransactions.BatchNeverRejects | ui/src/components/MonthlyTransactions.tsx:25-36 | the throttle run never rejects, and at most the default 6 tasks run at once |
| MonthlyTransactions.BatchResolves | ui/src/components/MonthlyTransactions.tsx:25-36 | a throttle run over the tasks that can go no further has resolved, and no such run exceeds 2n + 1 events, so every run resolves once all tasks finish |
| MonthlyTransactions.NewestFirst | ui/src/components/MonthlyTransactions.tsx:52-58 | the rows are a permutation of the collected values ordered by non-increasing time |
| MonthlyTransactions.InPlaceSortInvisible | ui/src/components/MonthlyTransactions.tsx:52-58 | sorting the stored values in place and later appending more gives, at the next render, the same rows as sorting the values in dispatch order |
| Sorting.SortDescStable | ui/src/components/MonthlyTransactions.tsx:54-56 | the newest-first sort keeps rows with equal times in their input order |
| Sorting.ResortAfterAppend | ui/src/components/MonthlyTransactions.tsx:54-56 | sorting, appending and sorting again equals sorting the appended sequence once |
| Service.SessionKey | monitoring-service/monitoring/service.go:301-303 | the key starts with the decimal session height and ends with the chain id, its length being the sum of the three parts |
| Service.SessionKeyInjective | monitoring-service/monitoring/service.go:301-303 | with app keys and chain ids of fixed lengths, equal keys mean equal height, app key and chain |
| Service.SessionKeyAmbiguous | monitoring-service/monitoring/service.go:301-303 | without fixed lengths, height 1 with app key "23" and height 12 with app key "3" share a key |
| Service.ParamsAtHeight | monitoring-service/monitoring/service.go:75-123 | succeeds iff the provider answers and all four required keys exist and parse; the DAO and proposer shares are truncated to uint8 |
| Service.Multiplier | monitoring-service/monitoring/service.go:83-90 | the multiplier is read iff its key exists and parses as a float |
| Service.Percentage | monitoring-service/monitoring/service.go:92-110 | a share is read iff its key exists and parses as a base-10 int64, and is kept modulo 256 |
| Service.ClaimExpiration | monitoring-service/monitoring/service.go:112-120 | the claim expiration is read iff its key exists and parses as a uint64 |
| Service.DaoAllocationTruncated | monitoring-service/monitoring/service.go:96-100 | a DAO allocation of "300" is reported as 44 |
| Service.ExampleProposer | monitoring-service/monitoring/service.go:102-110 | a proposer percentage of "5" is read as 5 |
| Service.ExampleClaimExpiration | monitoring-service/monitoring/service.go:112-120 | a claim expiration of "24" is read as 24 |
| Service.Enrich | monitoring-service/monitoring/service.go:138-145 | a transaction gets its block time and POKT per relay, and expire height = claim expiration + height in uint arithmetic; nothing else changes |
| Service.EnrichAll | monitoring-service/monitoring/service.go:131-146 | succeeds iff the parameter and block-time lookups of every transaction succeed, and then enriches each one at its own index |
| Service.AccountTransactions | monitoring-service/monitoring/service.go:125-149 | fails iff the page or any per-transaction lookup fails; otherwise every transaction is enriched in place, in order |
| Service.LastMatch | monitoring-service/monitoring/service.go:169-179 | finds the last transaction of a type with a session key, or reports none |
| Service.BucketSpec | monitoring-service/monitoring/service.go:169-179 | a key is in a type's map iff some transaction of that type has it, and maps to the last such transaction |
| Service.StoreConcat | monitoring-service/monitoring/service.go:159-181 | storing page after page equals storing their concatenation |
| Service.FromFullPage | monitoring-service/monitoring/service.go:159-181 | after a full page of 100 the walk stores it and asks for the next page |
| Service.PagesStep | monitoring-service/monitoring/service.go:159-181 | the transactions read from a page on are that page's followed by the rest |
| Service.ClaimsAndProofsPages | monitoring-service/monitoring/service.go:151-185 | a finished `AccountClaimsAndProofs` walk has read pages 1, 2, … of 100 in "desc" order, all full but the last, and the maps are claims and proofs stored in that order |
| Service.StoreKeepsTypes | monitoring-service/monitoring/service.go:169-179 | every stored transaction has the map's type and is stored under its own session key |
| RewardAggregation.YearMonthKeyInjective | monitoring-service/monitoring/service.go:245 | distinct (year, month) pairs give distinct month keys |
| RewardAggregation.Confirm | monitoring-service/monitoring/service.go:239-243 | a claim is confirmed iff a proof with its session key exists with result code 0; nothing else changes |
| RewardAggregation.Annotated | monitoring-service/monitoring/service.go:238-243 | every claim, visited in map order, is annotated with its confirmation |
| RewardAggregation.MonthsKeys | monitoring-service/monitoring/service.go:245-260 | a month key exists iff some claim falls in that month |
| RewardAggregation.MonthsFresh | monitoring-service/monitoring/service.go:246-259 | a new month starts with the seven zeroed weekdays and the key's year and month |
| RewardAggregation.AddClaimAt | monitoring-service/monitoring/service.go:245-267 | adding a claim appends it to its own month only, adding its relays to the total when confirmed |
| RewardAggregation.MonthsContents | monitoring-service/monitoring/service.go:261-267 | a month's claims are exactly the claims of that month in visiting order, and its total sums the confirmed ones' relays |
| RewardAggregation.GapsTelescope | monitoring-service/monitoring/service.go:278-283 | the sum of consecutive gaps after a real transaction equals last minus that transaction's time |
| RewardAggregation.GapsNoneMeansZero | monitoring-service/monitoring/service.go:275-283 | when no gap is counted the total gap is 0 |
| RewardAggregation.GapsFromStart | monitoring-service/monitoring/service.go:275-283 | from the zero transaction the total gap is last − first over n − 1 gaps |
| RewardAggregation.AddDaysSum | monitoring-service/monitoring/service.go:285-286 | a weekday's counter gains the relays of every claim on that weekday, confirmed or not |
| RewardAggregation.AddDays | monitoring-service/monitoring/service.go:285-286 | the weekday counters keep their seven keys and their names |
| RewardAggregation.EmptyWeekNames | monitoring-service/monitoring/service.go:251-259 | a new month's weekday d is named after Go's weekday d, Sunday first, with 0 relays |
| RewardAggregation.CollectedDays | monitoring-service/monitoring/service.go:245-267 | every collected month has all seven weekday counters |
| RewardAggregation.Summarise | monitoring-service/monitoring/service.go:270-296 | a month's claims end sorted by ascending time, as a permutation, with year, month and total kept |
| RewardAggregation.SummariseGaps | monitoring-service/monitoring/service.go:275-293 | the total gap is last − first and the average is that over n − 1, or 0 for one claim |
| RewardAggregation.SortedGaps | monitoring-service/monitoring/service.go:270-283 | after sorting, the first and last claims bound every claim's time and the gaps run first to last |
| RewardAggregation.GapSummaryOf | monitoring-service/monitoring/service.go:270-293 | a sorted month with the stored gap totals satisfies the gap statistics of the original claims |
| RewardAggregation.SummariseDays | monitoring-service/monitoring/service.go:285-286 | a collected month's weekday counters sum the relays of its claims on each weekday |
| RewardAggregation.SummariseSpec | monitoring-service/monitoring/service.go:270-296 | a collected month summarises to sorted claims, correct weekday sums and gap statistics |
| RewardAggregation.RewardsByMonthSpec | monitoring-service/monitoring/service.go:231-299 | `RewardsByMonth` reports a month iff some claim falls in it, and its entry summarises exactly the claims of that month |
| RewardAggregation.RewardsByMonthAt | monitoring-service/monitoring/service.go:245-299 | the reported months are the collected ones, each summarised |
| RewardAggregation.RewardsByMonthOf | monitoring-service/monitoring/service.go:232-235 | a failed claim walk yields an error prefixed "RewardsByMonth: " |
| RewardAggregation.MonthTransactions | monitoring-service/monitoring/service.go:261-267 | a month's transactions are exactly the annotated claims with that month key |
| RewardAggregation.ClaimInOneMonth | monitoring-service/monitoring/service.go:245-267 | every claim appears in its own month and in no other |
| RewardAggregation.OnlyClaimsInMonths | monitoring-service/monitoring/service.go:238-267 | only claims appear in months; proofs never do |
| Endpoints.TxResponses | monitoring-service/monitoring/endpoints.go:57-69 | one response per transaction, in the same order |
| Endpoints.ToMonthResponse | monitoring-service/monitoring/endpoints.go:49-71 | the response carries the month's year, month, total as relay count, confirmed-only POKT and transactions |
| Endpoints.Responses | monitoring-service/monitoring/endpoints.go:49-71 | one response per month of the map, in visiting order |
| Endpoints.MonthlyRewardsEndpoint | monitoring-service/monitoring/endpoints.go:32-81 | succeeds iff the request has the right type and the service answers; the responses are a permutation of the months, newest first |
| Endpoints.NewestFirst | monitoring-service/monitoring/endpoints.go:73-78 | earlier entries are later in (year, month) |
| Endpoints.RecencyOrder | monitoring-service/monitoring/endpoints.go:73-78 | the sort key orders by year, then month, and is equal exactly for the same year and month |
| Sorting.SortDescDeterministic | monitoring-service/monitoring/endpoints.go:73-75 | sorting newest first gives one answer for any two arrangements of the same months when no two share a key |
| Endpoints.OrderIrrelevant | monitoring-service/monitoring/endpoints.go:49-80 | the response does not depend on map iteration order |
| Endpoints.AccountTransactionsEndpoint | monitoring-service/monitoring/endpoints.go:161-190 | succeeds iff the request has the right type and the service answers; transactions are mapped one to one, in order |
| Endpoints.NodeEndpoint | monitoring-service/monitoring/endpoints.go:214-251 | succeeds iff the request has the right type and the service answers; the node's fields and chains are copied, chains in order |
| Transport.OptionalUint32 | monitoring-service/monitoring/transport.go:88-104 | an empty parameter reads as 0; a non-empty one must be decimal digits below 2^32, and that value is read |
| Transport.QueryGet | monitoring-service/monitoring/transport.go:89 | a missing query parameter reads as the empty string |
| Transport.DecodeTransactionRequest | monitoring-service/monitoring/transport.go:71-79 | decodes iff the hash path variable is present |
| Transport.DecodeAccountTransactionsRequest | monitoring-service/monitoring/transport.go:81-117 | decodes iff the address is present and page and per_page read; an empty sort becomes "asc" |
| Transport.DecodeNodeRequest | monitoring-service/monitoring/transport.go:119-127 | decodes iff the address path variable is present |
| Transport.DecodeMonthlyRewardsRequest | monitoring-service/monitoring/transport.go:138-146 | decodes iff the address path variable is present |
| Transport.AccountTransactionsDefaults | monitoring-service/monitoring/transport.go:88-109 | with no query the request is page 0, per page 0, sort "asc" |
| Transport.PageRoundTrip | monitoring-service/monitoring/transport.go:88-95 | a page written in decimal reads back iff it is below 2^32, and errors otherwise |
| Transport.SortPassedThrough | monitoring-service/monitoring/transport.go:106-109 | a non-empty sort is passed through unchanged |
| ProviderTransaction.ToTransaction | monitoring-service/provider/pocket/transaction.go:32-52 | an empty total_proofs gives 0; otherwise it must be digits below 2^32, else the zero transaction and an error; hash, type and chain are copied |
| ProviderTransaction.TotalProofsRoundTrip | monitoring-service/provider/pocket/transaction.go:36-50 | a count written in decimal reads back iff it fits 32 bits |
| ProviderTransaction.HeightOf | monitoring-service/provider/pocket/transaction.go:47 | a non-negative float height becomes its integer part |
| ProviderTransaction.NegativeProofsRejected | monitoring-service/provider/pocket/transaction.go:39-42 | "-1" is rejected |
| Params.Get | monitoring-service/pocket/params.go:50-57 | finds the first param with the key, or ("", false) iff none has it |
| Params.Validate | monitoring-service/pocket/params.go:24-46 | succeeds iff all five groups are non-empty |
| Params.ValidateNamesFirstEmpty | monitoring-service/pocket/params.go:25-43 | the error names the first empty group in the order app, auth, gov, node, pocket |
| Params.ToUint8 | monitoring-service/monitoring/service.go:100 | the uint8 conversion keeps values below 256 and otherwise reduces modulo 256 |
| Params.LegacyFactor | monitoring-service/pocket/params.go:64-66 | 100 − DAO − proposer in uint8 arithmetic, wrapping modulo 256 |
| Params.LegacyFactorWraps | monitoring-service/pocket/params.go:65 | shares of 90 and 20 give a factor of 246 |
| Chains.ChainFromID | monitoring-service/pocket/chain.go:12-19 | succeeds iff the id is a table key, returning a chain with that id; an unknown id gives the zero chain and an error |
| Chains.TableKeysAreIDs | monitoring-service/pocket/chain.go:21-292 | every table key equals its entry's id |
| Chains.LookupAlgorandArchival | monitoring-service/pocket/chain.go:28-33 | "000D" is Algorand Archival |
| Chains.LookupPocketNetwork | monitoring-service/pocket/chain.go:250-255 | "0001" is Pocket Network |
| Chains.LookupIsExact | monitoring-service/pocket/chain.go:12-19 | lookup is case-sensitive: "000d" is unknown |
| Pocket.PoktAmount | monitoring-service/pocket/rewards.go:26-34 | the amount is the sum over confirmed transactions only |
| Pocket.PoktAmountEmpty | monitoring-service/pocket/rewards.go:26-34 | no transactions give 0 |
| Pocket.PoktAmountAppend | monitoring-service/pocket/rewards.go:28-32 | appending adds the transaction's amount iff it is confirmed |
| Pocket.PoktAmountPermutation | monitoring-service/pocket/rewards.go:28-32 | the amount does not depend on transaction order |
| Pocket.PoktAmountIsSum | monitoring-service/pocket/rewards.go:26-34 | the amount is the sum over transactions of the confirmed ones' amounts |
| MonitoringRepos.NewRepo | monitoring-service/inmem/blocktimes.go:11-22 | a fresh repo reports (zero, false) for every height |
| MonitoringRepos.Get | monitoring-service/inmem/block.go:17-24 | a height is found iff stored, with its value; otherwise the zero value |
| MonitoringRepos.Set | monitoring-service/inmem/block.go:26-28 | after a set the height reads back the value, and every other height is unchanged |
| MonitoringRepos.GetBlockTime | monitoring-service/inmem/blocktimes.go:15-22 | a missing block time reads as Go's zero time |
| MonitoringRepos.SetOverwrites | monitoring-service/inmem/blocktimes.go:24-26 | a second set overwrites the first without error |
| BlockTimeBatches.Batches | monitoring-service/cmd/blocktimefetcher/main.go:56-89 | the batch starting at i requests i … i+k−1 with k = min(25, maxHeight − i); batches start 25 apart |
| BlockTimeBatches.BatchSizeAt | monitoring-service/cmd/blocktimefetcher/main.go:59-62 | a batch holds 25 heights, or fewer when maxHeight − i is smaller |
| BlockTimeBatches.BatchesCover | monitoring-service/cmd/blocktimefetcher/main.go:56-89 | the batches from i cover exactly i … maxHeight − 1, in order and disjointly |
| BlockTimeBatches.PlanMissesMaxHeight | monitoring-service/cmd/blocktimefetcher/main.go:56-89 | the whole plan covers 1 … maxHeight − 1, so maxHeight is never requested |
| BlockTimeBatches.PlanAt26 | monitoring-service/cmd/blocktimefetcher/main.go:58-70 | at maxHeight 26 the second batch is empty and 26 is missed |
| BlockTimeBatches.CorrectedBatchesCover | monitoring-service/cmd/blocktimefetcher/main.go:56-89 | with k = min(25, maxHeight − i + 1) no batch is empty and i … maxHeight are covered |
| BlockTimeBatches.CorrectedBatchSizeAt | monitoring-service/cmd/blocktimefetcher/main.go:59-62 | the corrected batch holds 25 heights, or maxHeight − i + 1 when that is smaller |
| BlockTimeBatches.CorrectedBatches | monitoring-service/cmd/blocktimefetcher/main.go:56-89 | the corrected batches start 25 apart, each of its corrected size |
| BlockTimeBatches.CorrectedPlanCovers | monitoring-service/cmd/blocktimefetcher/main.go:56-89 | the corrected plan requests every height from 1 to maxHeight |
| BlockStore.NewStore | indexing-service/inmem/blocks.go:16-19 | a new store holds no block |
| BlockStore.CreateSchema | indexing-service/inmem/blocks.go:21-23 | never fails and changes nothing |
| BlockStore.DropSchemaIfExists | indexing-service/inmem/blocks.go:25-27 | never fails and changes nothing |
| BlockStore.FetchAllBlocks | indexing-service/inmem/blocks.go:29-31 | returns exactly the stored blocks |
| BlockStore.FetchBlock | indexing-service/inmem/blocks.go:33-40 | a height is found iff stored; otherwise the zero block |
| BlockStore.InsertBlock | indexing-service/inmem/blocks.go:52-59 | fails iff the height is taken; otherwise the block is stored and no other height changes |
| BlockStore.FetchBlocks | indexing-service/inmem/blocks.go:42-50 | returns exactly the requested heights that are stored, each with its block |
| BlockStore.InsertTwice | indexing-service/inmem/blocks.go:52-59 | a second insert at the same height fails and the first block stays |
| ReadThrough.Lookup | indexing-service/param/cache.go:39-59 | a lookup error or a hit never calls the service; a miss calls it and inserts the answer; any error leaves the store unchanged |
| ReadThrough.InsertAll | indexing-service/transaction/cache.go:55-61 | items are inserted in order until the first failure, which is reported; earlier inserts remain |
| ReadThrough.ReplayFailsAfter | indexing-service/transaction/cache.go:55-61 | one failing insert makes the whole replay fail |
| BlockCache.Height | indexing-service/block/cache.go:30-37 | passes the service's height through, or its error with a prefix |
| BlockCache.RepoLookup | indexing-service/block/cache.go:40-43 | a repo fault is an error; otherwise the stored block or nothing |
| BlockCache.GetBlock | indexing-service/block/cache.go:39-66 | a hit returns the stored block without the service; a miss fetches, inserts under the fetched block's height and returns it; errors leave the repo unchanged |
| BlockCache.BlockCached | indexing-service/block/cache.go:44-57 | after a successful fetch the repo holds the block, and asking again is a hit |
| BlockCache.InsertErrorAfterFetch | indexing-service/block/cache.go:48-55 | a fetched block whose height is already stored is reported as an error |
| ParamCache.InsertParams | indexing-service/param/cache.go:61-67 | fails iff the height is taken; otherwise stores the params and nothing else changes |
| ParamCache.AllParams | indexing-service/param/cache.go:30-37 | returns the repo's contents and never calls the service |
| ParamCache.Params | indexing-service/param/cache.go:39-59 | a hit never calls the service; a miss fetches, inserts and returns; lookup, service and insert errors propagate |
| ParamCache.ParamsCached | indexing-service/param/cache.go:45-58 | after a successful call the params are stored, and asking again is a hit |
| TransactionCache.BlockTransactions | indexing-service/transaction/cache.go:36-64 | the block loads first; stored transactions matching the block's count are returned without the service; otherwise fetched ones are inserted in order, stopping at the first failure |
| NodeCache.NodesAtHeight | indexing-service/node/cache.go:28-41 | a service error upserts nothing; otherwise nodes are upserted in order until the first failure; on success the service's list is returned |
| ParamService.GroupFromProvider | indexing-service/param/service.go:59-70 | the map's keys are the group's keys, each holding the value of its last occurrence |
| ParamService.GroupFromEmpty | indexing-service/param/service.go:59-70 | an empty group gives an empty map |
| ParamService.LaterEntryWins | indexing-service/param/service.go:64-67 | of two entries with one key the later is kept |
| ParamService.Params | indexing-service/param/service.go:33-53 | fails on a provider error or an absent result; otherwise each of the five groups is converted and the height recorded |
| ParamService.AllParams | indexing-service/param/service.go:55-57 | always fails |
| Paging.Run | indexing-service/transaction/service.go:46-128 | round k asks for the k-th page of the schedule; a finished walk holds the pages' items in order and stopped only at its last page; a failed one met the error of its final page; a walk out of fuel only read pages that asked to go on |
| Paging.LastPage | indexing-service/transaction/service.go:123-127 | the last page of a finished walk stopped the loop, reading with the count of the pages before it, and that count plus its items is the total |
| NodeService.ConvertNode | indexing-service/node/service.go:60-79 | converts iff the tokens parse as a decimal int; the node is stamped with the height and its fields copied |
| NodeService.ConvertNodes | indexing-service/node/service.go:60-79 | converts a page iff every node converts, in order |
| NodeService.ReadNodePage | indexing-service/node/service.go:49-79 | a provider error fails the round; otherwise the round succeeds iff every node converts, and the loop stops exactly when the page is the last one or not full |
| NodeService.NodesAtHeight | indexing-service/node/service.go:33-83 | pages 1, 2, 3, … are requested; a finished walk holds the nodes of its pages in order and stopped at the first last or short page; a failed one met the error of its final page; otherwise every page asked to go on |
| NodeService.NodesStamped | indexing-service/node/service.go:60-79 | every node collected from any run of pages carries the requested height |
| TransactionService.DecodeClaim | indexing-service/transaction/service.go:173-231 | decodes iff the four numeric fields parse as decimal ints; evidence type is truncated to int8 |
| TransactionService.EvidenceTypeTruncated | indexing-service/transaction/service.go:173-231 | an evidence type of 200 is stored as −56 |
| TransactionService.DecodeProof | indexing-service/transaction/service.go:233-265 | decodes iff the session height parses |
| TransactionService.DecodeStake | indexing-service/transaction/service.go:267-286 | decodes iff the staked amount parses |
| TransactionService.Fee | indexing-service/transaction/service.go:63-72 | no fee entries give 0; otherwise the first entry's amount must parse, as a signed decimal |
| TransactionService.ConvertTx | indexing-service/transaction/service.go:63-120 | fails iff the fee or the type's own message fails to parse; only sends set recipient and amount, and each other type fills only its own record |
| TransactionService.ConvertTxs | indexing-service/transaction/service.go:55-121 | a page converts iff every transaction does, in order |
| TransactionService.ReadTxPage | indexing-service/transaction/service.go:50-127 | a provider error fails the round; otherwise the round succeeds iff every transaction converts, and the loop stops exactly when the running count reaches the reported total |
| TransactionService.BlockTransactions | indexing-service/transaction/service.go:33-131 | the i-th request is page PageAt(i); a finished walk holds the transactions of its pages in order and only its last page stopped the loop; a failed one met the error of its final page |
| TransactionService.ReachesTotal | indexing-service/transaction/service.go:123-127 | a finished walk holds at least as many transactions as its last page reported in total |
| TransactionService.PageAt | indexing-service/transaction/service.go:48-49 | the i-th request is for a page at least i + 1 |
| TransactionService.PageAtGrows | indexing-service/transaction/service.go:48-49 | pages are requested in strictly increasing order, never twice |
| TransactionService.PageAtClosedForm | indexing-service/transaction/service.go:48-49 | the i-th page requested is 1 + i(i+1)/2 |
| TransactionService.PageThreeNeverRequested | indexing-service/transaction/service.go:48-49 | page 3 is never requested |
| TransactionService.BlockTransactionsCorrected | indexing-service/transaction/service.go:33-131 | with the page incremented by one, pages 1, 2, 3, … are requested; a finished walk holds the transactions of its pages in order and only its last page stopped the loop |
| JobPlanner.Plan | indexing-service/cmd/jobcreator/main.go:122-146 | both queues are strictly descending; a height is queued iff it is between 1 and the network height and not cached |
| NodeMetrics.ToTimeUnits | ui/src/components/NodeMetrics.tsx:94-121 | days above 86400 s, hours above 3600 s, minutes above 60 s, else seconds; the value is the floor in that unit and at least 1 outside seconds |
| NodeMetrics.ValueBelowSeconds | ui/src/components/NodeMetrics.tsx:94-116 | above a minute the shown value is below the number of seconds |
| NodeMetrics.OneDayIsHours | ui/src/components/NodeMetrics.tsx:102-108 | exactly 86400 s is 24 hours |
| NodeMetrics.SentinelStaysNegative | ui/src/components/NodeMetrics.tsx:117-120 | the −1 sentinel gives −1 seconds, which the display treats as absent |
| NodeMetrics.UnitsMonotone | ui/src/components/NodeMetrics.tsx:94-121 | longer durations never get smaller units |
| NodeMetrics.NextWindow | ui/src/components/NodeMetrics.tsx:263-265 | the toggle goes 0 → 1 → 2 → 0 |
| NodeMetrics.WindowCycles | ui/src/components/NodeMetrics.tsx:263-265 | after k clicks the state is k mod 3 |
| NodeMetrics.WindowDays | ui/src/components/NodeMetrics.tsx:269-289 | states 0, 1 and 2 show 10, 30 and 90 days; no other state shows a window |
| NodeMetrics.AlwaysAWindow | ui/src/components/NodeMetrics.tsx:50 | from the initial state some window is always shown |
| NodeMetrics.MonthsEarnedIsFlat | ui/src/components/NodeMetrics.tsx:73-84 | summing month by month equals summing over all transactions |
| NodeMetrics.TxsEarnedConcat | ui/src/components/NodeMetrics.tsx:73-84 | earnings split over concatenation of transaction lists |
| NodeMetrics.IgnoredTxAddsNothing | ui/src/components/NodeMetrics.tsx:77-79 | `Earned` is 0 for unconfirmed transactions and for those before the cutoff, so they add nothing |
| NodeMetrics.ZeroDayCutoff | ui/src/components/NodeMetrics.tsx:68-71 | for zero days `Cutoff` is 00:00:01 plus now's milliseconds, so a confirmed transaction at exactly 00:00:01.000 counts iff now is on a whole second |
| NodeMetrics.ZeroDayExample | ui/src/components/NodeMetrics.tsx:68-79 | at 05:00:00.500 the cutoff is 00:00:01.500 and a transaction at 00:00:01.000 earns nothing |
| NodeMetrics.CountedTxAddsAmount | ui/src/components/NodeMetrics.tsx:77-79 | a confirmed transaction at or after the cutoff adds its amount |
| NodeMetrics.AvgPoktForLastDays | ui/src/components/NodeMetrics.tsx:64-92 | the result is the per-day total, divided by the number of days when that is positive, rounded half-up |
| NodeMetrics.NothingEarnedAveragesZero | ui/src/components/NodeMetrics.tsx:73-91 | with nothing counted the average is 0 |
| NodeMetrics.NoCountedTxEarnsZero | ui/src/components/NodeMetrics.tsx:77-79 | a list with no confirmed transaction at or after the cutoff earns 0 |
| NodeHealth.HeaderColor | ui/src/components/AppHeader.tsx:60-67 | red iff jailed or absent; amber iff present, free, with a known non-zero height below the network's; green means healthy |
| NodeHealth.BadgeColor | ui/src/components/NodeStatus.tsx:86 | red iff jailed or absent, green otherwise |
| NodeHealth.StatusText | ui/src/components/AppHeader.tsx:69-70 | "Invalid address" iff absent, "Jailed" iff present and jailed, "Not Jailed" otherwise |
| NodeHealth.HeaderRefinesBadge | ui/src/components/NodeStatus.tsx:86-88 | the header and the badge agree on red and differ only where the header shows amber |
| NodeHealth.UnknownHeightNeverAmber | ui/src/components/AppHeader.tsx:63 | with an unknown or zero height the header colour is the badge colour |
| NodeHealth.TextMatchesBadge | ui/src/components/NodeStatus.tsx:86-88 | "Not Jailed" is shown exactly with the green badge |
| AppHeader.ResolveAddress | ui/src/components/AppHeader.tsx:50-57 | the URL address if non-empty, else the current one if non-empty, else the first saved address is persisted |
| AppHeader.PersistedAddressIsShownNext | ui/src/components/AppHeader.tsx:50-57 | once the first saved address is persisted it is shown on the next render |
| AppHeader.BalanceRequest | ui/src/components/AppHeader.tsx:72-77 | no balance lookup for an empty or undefined address |
| AppHeader.NodeDataRequest | ui/src/components/AppHeader.tsx:87-94 | no refresh for an empty node address |
| AppHeader.UrlAddressIsRequested | ui/src/components/AppHeader.tsx:50-77 | a non-empty URL address is the one looked up |
| AppHeader.PendingRelays | ui/src/components/AppHeader.tsx:116-127 | computed iff a first month exists: the relays of its unconfirmed claims not yet expired |
| AppHeader.PendingSumConcat | ui/src/components/AppHeader.tsx:117-124 | the pending sum splits over concatenation |
| AppHeader.PendingSum | ui/src/components/AppHeader.tsx:116-127 | the pending sum totals the relays of exactly the pending claims |
| AppHeader.PendingShrinksWithHeight | ui/src/components/AppHeader.tsx:119 | with non-negative counts, a later height never raises the pending relays |
| AppHeader.ConfirmingRemovesRelays | ui/src/components/AppHeader.tsx:119-120 | confirming a claim removes exactly its relays if it was pending |
| NodeChooser.AddressIsSaved | ui/src/components/NodeChooser.tsx:36 | holds iff the list is defined and contains the address |
| NodeChooser.ToggleBookmark | ui/src/components/NodeChooser.tsx:100-115 | no-op for an empty address or undefined list; a saved address loses its first occurrence, the rest keeping order; an unsaved one is appended |
| NodeChooser.ToggleTwiceRestores | ui/src/components/NodeChooser.tsx:100-115 | bookmarking and un-bookmarking an unsaved address restores the list |
| NodeChooser.ToggleFlipsSaved | ui/src/components/NodeChooser.tsx:100-115 | for an address stored at most once, a toggle flips whether it is saved |
| NodeChooser.OtherSaved | ui/src/components/NodeChooser.tsx:67 | the popover lists the saved addresses other than the current one in stored order: it omits every copy of the current address and keeps every other address's count |
| NodeChooser.PopoverIgnoresCurrent | ui/src/components/NodeChooser.tsx:67 | bookmarking the current address does not change the popover |
| NodeChooser.CurrentLabel | ui/src/components/NodeChooser.tsx:58 | first 4 + "..." + last 4 characters, with JS clamping for short addresses |
| NodeChooser.SavedLabel | ui/src/components/NodeChooser.tsx:71 | first 12 + "..." + last 4 characters for addresses of 12 or more; the whole address + "..." + last 4 for 4 to 11; the whole address twice around "..." below 4 |
| NodeStatus.AddressLabel | ui/src/components/NodeStatus.tsx:131 | first 6 + "..." + last 4 characters, 13 in all for long addresses |
| NodeStatus.LabelsCollide | ui/src/components/NodeStatus.tsx:131 | two long addresses share a label iff they agree on the first 6 and last 4 characters |
| NodeStatus.NodeLookup | ui/src/components/NodeStatus.tsx:42-46 | aborts iff the RPC endpoint is empty or the address is the empty string |
| NodeStatus.UndefinedAddressIsLookedUp | ui/src/components/NodeStatus.tsx:43 | an undefined address does not abort the lookup |
| Routing.ActivePath | ui/src/components/HamburgerMenu.tsx:28-40 | "rewards" or "errors" iff that is the last '/'-separated segment, else "" |
| Routing.ActiveIff | ui/src/components/NodeStatus.tsx:23-37 | the path is active for a word iff the pathname is the word or ends in "/" + word |
| Routing.TrailingSlashInactive | ui/src/components/HamburgerMenu.tsx:30-33 | a trailing slash leaves no active path |
| Routing.MenuButtons | ui/src/components/HamburgerMenu.tsx:51-78 | Home comes first; Rewards and Logs appear iff the node address is non-empty |
| Routing.HomeNeverOutlined | ui/src/components/HamburgerMenu.tsx:53 | Home never gets the outline, since the active path is never "/" |
| Routing.AtMostOneOutlined | ui/src/components/HamburgerMenu.tsx:53-71 | at most one button is outlined |
| Routing.LinksActivateTheirButton | ui/src/components/HamburgerMenu.tsx:65-73 | following a button's link outlines that button |
| ErrorsPage.Request | ui/src/pages/Errors.tsx:32-42 | nothing is fetched while no chain is chosen; otherwise 100 logs from offset (page − 1) · 100 |
| ErrorsPage.SwitchChain | ui/src/pages/Errors.tsx:56-60 | choosing a chain resets the page to 1 |
| ErrorsPage.Apply | ui/src/pages/Errors.tsx:93-97 | back moves one page down unless page ≤ 1; next moves up unless fewer than 100 logs came back |
| ErrorsPage.PageStaysPositive | ui/src/pages/Errors.tsx:27-97 | whatever is clicked the page stays at least 1, so offsets are non-negative multiples of 100 |
| ErrorsPage.WindowsDisjoint | ui/src/pages/Errors.tsx:38 | distinct pages fetch disjoint windows |
| ErrorsPage.StepKeepsAfter | ui/src/pages/Errors.tsx:118-137 | each `Step` of the row loop keeps the loop variables' meaning, and `Render` of the new state is the expected row |
| ErrorsPage.Rows | ui/src/pages/Errors.tsx:74-158 | one rendering per log, each equal to the loop-free description of its row |
| ErrorsPage.RowsFrom | ui/src/pages/Errors.tsx:118-158 | from any loop position, the remaining renderings are the loop-free description of each remaining row |
| ErrorsPage.HiddenIff | ui/src/pages/Errors.tsx:118-142 | a row is hidden iff it is neither first nor last and equals the one before |
| ErrorsPage.EndsAlwaysShown | ui/src/pages/Errors.tsx:74-75 | the first and last rows are always shown |
| ErrorsPage.NoRepeatsAllPlain | ui/src/pages/Errors.tsx:118-158 | with no equal neighbours every row is plain |
| ErrorsPage.NoteOnFollowingLog | ui/src/pages/Errors.tsx:121-147 | after a run the repeat note goes on the next, different log |
| PingTester.ColorOf | ui/src/components/PingTester.tsx:54-61 | red below 0.8, orange from 0.8 below 1, green from 1, and green when nothing was sent |
| PingTester.RatioCompare | ui/src/components/PingTester.tsx:56-59 | the two ratio comparisons, stated on integers |
| PingTester.NextColor | ui/src/components/PingTester.tsx:51-63 | no colour is computed without a result |
| PingTester.TenPings | ui/src/components/PingTester.tsx:54-61 | of ten pings, ten answered is green, eight or nine orange, fewer red |
| PingTester.MoreAnswersNoWorse | ui/src/components/PingTester.tsx:54-61 | more answers never worsen the colour |
| MonthlyRewards.Slices | ui/src/components/MonthlyRewards.tsx:66-75 | one slice per chain at the same index, with id = label = name and value = relay count |
| MonthlyRewards.RelaysByChain | ui/src/components/MonthlyRewards.tsx:66-79 | the slices are a permutation ordered by non-increasing value |
| MonthlyRewards.OrderDeterminedWithoutTies | ui/src/components/MonthlyRewards.tsx:76-78 | without tied relay counts every valid ordering equals the model's |
| MonthlyRewards.ReversedRows | ui/src/components/MonthlyRewards.tsx:165 | rows appear last to first |
| MonthlyRewards.ReverseTwice | ui/src/components/MonthlyRewards.tsx:165 | reversing the copy twice gives back the month's order |
| MonthlyRewards.Settle | ui/src/components/MonthlyRewards.tsx:45-55 | whether the fetch succeeded or not the page is loaded and not refreshing; months are replaced only on success |
| MonthlyRewards.Start | ui/src/components/MonthlyRewards.tsx:45-47 | starting the fetch marks the page refreshing and keeps the loaded flag |
| MonthlyRewards.NoFetchAfterSettle | ui/src/components/MonthlyRewards.tsx:45-61 | after one fetch settles the effect never fetches again, while before it settles the guard still lets the effect fetch |
| RewardTransaction.DescriptionEmptyIffProof | ui/src/components/RewardTransaction.tsx:14 | the description is empty exactly for proofs |
| RewardTransaction.ChainReadBack | ui/src/components/RewardTransaction.tsx:14 | the chain id can be read back from between the brackets |
| RewardTransaction.RelayCountReadBack | ui/src/components/RewardTransaction.tsx:14 | the relay count parses back from the description's leading digits |
| RewardTransaction.DashIffNoDescription | ui/src/components/RewardTransaction.tsx:14-15 | the amount is a dash exactly when the description is empty |
| RewardTransaction.Amount | ui/src/components/RewardTransaction.tsx:15 | a dash exactly for proofs, otherwise the amount for the row's relay count |
| RewardTransaction.ShortLabel | ui/src/components/RewardTransaction.tsx:35 | first 4 + "..." + last 2 characters, 9 in all, for strings of 4 or more; the whole string + "..." + last 2 for 2 or 3; the whole string twice around "..." below 2 |
| RewardTransaction.ConfirmedRowNotPending | ui/src/components/RewardTransaction.tsx:51-54 | a row with the confirmed icon never counts as pending in the header |
| RewardTransaction.ConfirmationIcon | ui/src/components/RewardTransaction.tsx:51-54 | the confirmed icon is shown exactly for confirmed rows |

## Left out

- HTTP, RPC, JSON, SQL, bitcask and redis I/O are left out; providers and repositories are function parameters. Go's `%s` and `%v` error texts appear only as prefixes where the model keeps them.
- The monitoring service's `Height`, `Transaction`, `BlockTimes`, `Node` and `SimulateRelay` are thin provider wrappers and are left out. So are `BlockTimesEndpoint`, `TransactionEndpoint` and `decodeBlockTimesRequest`, a JSON body decode.
- Goroutines, Promises and the event loop are left out; the throttle's settle order is an explicit event sequence.
- `log.Fatalf` and failed `RPush` calls in the job creator are left out; the model is the set of heights queued.
- Dates and local time are left out: times are integer Unix seconds in the Go services and in MonthlyTransactions, and integer Unix milliseconds in the other UI components, with the year, month and weekday attached where the source derives them. For whole-second times, the price-date comparison in MonthlyTransactions.tsx gives the same answer in seconds as in milliseconds. The first priced date, 2022-01-12T07:12:38, is read by JS in local time; the model uses UTC (1641971558).
- Charts, colours, `toLocaleString` and skeletons are left out.
- `Math.random` shuffles in the charts are left out.
- Throttle.Update: `Math.round` over a float quotient is modelled as exact half-up rounding, which can differ from JS floats at exact .5 boundaries.
- BlockStore.FetchAllBlocks: the Go method returns the store's own map, so a caller that wrote into it would change the store; the model returns a value. No caller writes to it.
- ThrottleScheduler.Run: Promise timing is not modelled. Any fulfilled or rejected in-flight request may settle next, and a rejection ends the run.
- MonthlyTransactions.NewestFirst: the component sorts the throttle's `values` array in place, and later successes copy and extend that sorted array. The model keeps the values in dispatch order and sorts a copy. MonthlyTransactions.InPlaceSortInvisible shows that the rendered rows are the same either way. This relies on `Array.prototype.sort` being stable, as ECMAScript 2019 requires. The order of the stored array itself is not modelled.
- MonthlyRewards.NoFetchAfterSettle: `getRewards` depends on `props`, so a parent re-render during the first fetch can start a second fetch before `hasLoaded` is set. The model records only that the guard stays open until a fetch settles, not how many fetches start.
- MonthlyTransactions.RunTask: the one-second `timeout` and the mutation of `tx.poktPrice` through a shared object are not modelled beyond the price recorded on the dispatched value.
- Service.ParamsAtHeight: `strconv.ParseFloat` is a parameter, and error messages are not modelled.
- Service.ClaimsAndProofsPages: the page loop carries a fuel bound; a provider that always returns full pages is not followed past it.
- NodeService.NodesAtHeight: the page loop carries a fuel bound; a provider that never reports a last or short page is not followed past it.
- TransactionService.BlockTransactions: the page loop carries a fuel bound; `json.Marshal` of a decoded message cannot fail here and is not modelled.
- RewardAggregation.Summarise: `sort.Slice` is not stable; the model uses a stable sort, which is one of its possible outcomes. Average gaps are exact reals, and NaN becomes 0 as in the code.
- Pocket.PoktAmount: the float64 `PoktAmount()` of each transaction is taken as an opaque integer field, and the month total is exact integer addition rather than float64 addition.
- Pocket.PoktAmountPermutation: order independence holds for the exact sum only. float64 addition rounds at every step, so the source's total can differ in its last bits between orders.
- Params.LegacyFactor: only the uint8 factor is modelled; the float product `LegacyPoktPerRelay` is left out.
- Service.Enrich: the three unused float fields of the parameters are left out.
- ProviderTransaction.HeightOf: Go's `uint(float64)` is modelled as the floor for non-negative heights and 0 for negative ones, where Go's result is platform-dependent.
- Endpoints.OrderIrrelevant: stated for months with distinct (year, month), which month keys guarantee.
- MonthlyRewards.RelaysByChain: the comparator never answers "equal", so the order of ties depends on the engine; the model fixes one valid order.
- RewardTransaction.Amount: the amount is `PoktFor(numProofs)`; the float product with 0.0089 and `toFixed(4)` are left out.
- AppHeader.PendingRelays: the pending POKT sum, a float, is left out.
- NodeMetrics.AvgPoktForLastDays: amounts are exact reals; now and local midnight are parameters in milliseconds. The zero-day cutoff keeps now's milliseconds past 00:00:01, as `setHours(0, 0, 1)` does.
- NodeMetrics.ToTimeUnits: seconds are exact reals rather than floats.
- ErrorsPage.Rows: `logsAreEqual` is not defined in ui/src/types/error.ts, so the equality test is a parameter.
- NodeHealth.HeaderColor: `latestBlockHeight` is not declared on the node type, so it may be undefined; the model treats undefined as unknown, which makes the header green.
- NodeStatus.NodeLookup: React's state timing is left out. The RPC endpoint and the address are taken as they stand when the callback runs.
- `ParamGroups.height` is missing from indexing-service/pocket/param.go, but param/service.go:46 sets it; the model has the field.
- service.go uses `NumRelays`, `ResultCode` and `PoktPerRelay`, which the monitoring transaction type does not declare; the model has the fields.
- indexing-service/block/service_test.go is not part of this model.

## Findings

| source | as written | input that shows it | evidently intended | confidence | as-written member | corrected member |
|---|---|---|---|---|---|---|
| monitoring-service/cmd/blocktimefetcher/main.go:59-62 | the batch size is min(25, maxHeight − i), while the loop runs for i ≤ maxHeight | maxHeight = 26: heights 1 … 25, then an empty batch at 26; height 26 is never requested | min(25, maxHeight − i + 1), so 1 … maxHeight are all fetched | high, not executed | BlockTimeBatches.PlanMissesMaxHeight | BlockTimeBatches.CorrectedPlanCovers |
| indexing-service/transaction/service.go:48-49 | `opts.Page = opts.Page + i` adds the loop counter to the page | a block needing three pages of 10000: pages 1, 2 and 4 are requested, and page 3's transactions are lost | pages 1, 2, 3, … | high, not executed | TransactionService.PageThreeNeverRequested | TransactionService.BlockTransactionsCorrected |
