# Bloom-gated reserve cache refresh

A model of the cache refresher in `index.ts` of viem-bloom-filter. The
program keeps the reserves of a fixed set of liquidity pairs in an
in-memory map. On every new block it tests the block's logs bloom. It
first tests the tracked event topic, then each tracked pair's address. It
fetches reserves in one batch, only for the pairs that test positive. It
merges the results into the map under a block-height guard. It also counts
the calls that updated something ("needed") and the calls that updated
nothing ("unnecessary").

Modules:

- `Pairs` (`pairs.dfy`): the pair record, the fetched entries, the store
  built from the configured address list, and startup seeding as a
  specification function.
- `Selection` (`selection.dfy`): the topic gate, the malformed-block check,
  candidate selection (a filter over the store), and the per-block decision
  `Plan`.
- `Reconciler` (`reconciler.dfy`): the per-candidate update rule `Step`, the
  whole walk over the candidates `ReconcileUpTo`, and lemmas about the walk.
  The lemmas cover the per-record effect, `updated` against real changes,
  idempotence, the height guard, out-of-order completion, the same-height
  overwrite, and monotonicity over any order of completions.
- `Tracker` (`tracker.dfy`): the class `BloomTracker`. It holds the store's
  records and the three module-level counters. Its methods update them in
  place: construction, seeding, the block handler, reconciliation of a
  completed fetch, and a failed fetch.

How the source's runtime pieces are represented:

- **Records.** The store's records live in the field `pairs`, in the map's
  insertion order. The candidate list is a sequence of positions in that
  field. In the source, the candidate list holds the same record objects as
  the map, so the reconciler reads and writes the live records.
- **Fetches in flight.** `processBloom` is not awaited, so several fetches
  can be in flight at once. The model splits each one into two atomic
  steps. `OnBlock` covers everything up to the batched fetch and returns
  the job to fetch. `Reconcile` covers everything after the fetch returns.
  Issued jobs sit in a ghost multiset `pending`, and any of them may
  complete next.
- **Bloom probes.** The two probes, `isTopicInBloom` with the configured
  topic and `isContractAddressInBloom`, are function parameters
  (`topicIn`, `addrIn`).
- **Remote reads.** The batched fetches and the chain head height are
  method parameters.

Details kept as the code has them:

- A fetched reserve of `0` counts as absent (JavaScript truthiness), both in
  seeding and in reconciliation.
- A block number of `0` or a missing number is rejected. So is a missing
  hash or an empty hash (`!hash` on a string).
- The height guard skips only when the stored height is strictly greater.
  A result for the same height as the stored one is therefore applied, so
  two fetches for the same height race and the last one to complete wins.
  `Reconciler.SameHeightOverwrite` states this. The intended behaviour for
  that race is not specified anywhere, so the model keeps the code's rule
  and does not offer a corrected one.
- A batch entry past the end of the returned array reads as absent, like
  the optional chaining on `reserves?.[i]`.

## Model

| member | source | states |
|---|---|---|
| `Pairs.Dedup` | index.ts:16 | the map's key list has no duplicates and holds exactly the configured addresses; without duplicates in the configuration it is the configured list itself |
| `Pairs.InitialStore` | index.ts:16 | every configured address is tracked exactly once and nothing else is; every record starts with reserves (0, 0) and height 0 |
| `Pairs.SeedFromInitial` | index.ts:39-47 | after construction and seeding, a pair holds the fetched reserves and the head height exactly when both fetched values are present and nonzero; otherwise it keeps (0, 0, 0) |
| `Tracker.BloomTracker.constructor` | index.ts:12-16 | the store is the initial store of the configured list and all three counters are zero |
| `Tracker.BloomTracker.Seed` | index.ts:39-52 | runs only before any block is handled, on a store whose heights are all 0; the in-place loop leaves the store equal to the seeding function of the old store, no height decreases, and every counter is unchanged |
| `Selection.Candidates` | index.ts:83 | the candidates are store positions in increasing (store) order, each passes the address test, and every position that passes the test is included |
| `Selection.CandidatesAreFilter` | index.ts:83 | the records at the candidate positions are exactly the front-to-back filter of the store's records by the address test |
| `Selection.Plan` | index.ts:63-87 | a null bloom or a failed topic test gives no work; otherwise a block with a falsy number or hash is rejected; otherwise an empty selection gives no fetch; otherwise the fetch is for the full candidate list at the block's number, which is positive |
| `Selection.NoFalseNegatives` | index.ts:63-87 | when the address probe reports every address that logged in the block, a well-formed block whose topic test passes sends every tracked pair that logged to the fetch |
| `Tracker.BloomTracker.OnBlock` | index.ts:57-87 | `blocksProcessed` goes up by exactly one; the store, the needed counter and the unnecessary counter stay unchanged; the decision is `Plan`'s, and only a fetch adds a job in flight |
| `Reconciler.Step` | index.ts:109-121 | a candidate's record changes exactly when both results are truthy, they differ from the cached pair, and the cached height is at most the block's; when it changes, it holds the fetched pair at the block's height; the address never changes and the height never drops |
| `Reconciler.ReconcileUpTo` | index.ts:105-123 | the walk keeps the store's size and addresses, counts at most one update per visited candidate, and never decreases any pair's height |
| `Reconciler.ReconcileUpToAt` | index.ts:107-123 | with distinct candidates, a visited record is `Step` of its cached value and its own aligned result, and an unvisited record is untouched |
| `Reconciler.ReconciledAt` | index.ts:83-123 | after the whole walk, a pair outside the candidate list is unchanged and a candidate at position i is `Step` of its cached value and result i |
| `Reconciler.UpdatedIffChanged` | index.ts:105-123 | `updated` is positive exactly when the store differs from the store before the call |
| `Reconciler.ReconcileIdempotent` | index.ts:113-127 | reconciling the same results at the same height on the resulting store changes nothing and counts zero updates |
| `Reconciler.StaleUntouched` | index.ts:114-117 | a pair whose stored height is above the block's is left unchanged whatever the batch holds |
| `Reconciler.OutOfOrderCompletion` | index.ts:114-121 | after a reconciliation at H2 and then one at H1 < H2, every pair updated to H2 by the first keeps its record |
| `Reconciler.SameHeightOverwrite` | index.ts:114-121 | a truthy, different result for a pair already stored at the same height is applied: same-height completions race |
| `Reconciler.ReplayMonotone` | index.ts:114-121 | over any sequence of completed reconciliations, in any order, no pair's height decreases and no address changes |
| `Tracker.BloomTracker.ApplyBatch` | index.ts:105-123 | the in-place loop over the candidates leaves the store and `updated` equal to the reconciliation function |
| `Tracker.BloomTracker.Reconcile` | index.ts:105-131 | the store becomes the reconciled store; exactly one of the needed and unnecessary counters goes up by one, the needed one exactly when `updated > 0`; `updated` is at most the number of candidates; no height decreases; the job leaves the in-flight set |
| `Tracker.BloomTracker.FetchFailed` | index.ts:89-101 | a batch that fails as a whole drops its job and leaves the store and all counters unchanged (a recovery the source lacks; see Left out) |
| `Reconciler.AllAbsentUpdatesNothing` | index.ts:107-112 | a batch whose entries are all absent (a per-entry failure report) updates no pair and leaves the store as it was |
| `Tracker.ReconcileReplayed` | index.ts:105-131 | the same job reconciled twice with the same batch: the first pass's count is the reconciled count and is positive exactly when the store changed; the second pass updates nothing; `neededRpcsCalls` goes up only for the first pass and only if it updated something, `unnecessaryRpcCalls` takes the rest; `blocksProcessed`, the tracked addresses and the issued count are unchanged, and both copies of the job leave the in-flight set |

The class invariant `Valid()` keeps the tracked addresses fixed and
distinct. It keeps every job in flight within the store. It also keeps
`neededRpcsCalls + unnecessaryRpcCalls + (jobs in flight) <= (fetches
issued) <= blocksProcessed`. The constructor and every public method preserve it; the helper
`ApplyBatch`, which only rewrites `pairs`, is called from `Reconcile` inside that proof.

## Left out

- Environment and transport setup (the `ALCHEMY_ID` check, dotenv, the viem client): configuration plumbing with no logic of its own.
- `getBlockNumber`, `multicall` and `watchBlocks`: network calls. Their outputs appear as parameters: the head height of `Seed`, the aligned result sequence of `Seed` and `Reconcile`, and the block of `OnBlock`. A failure of the startup fetch, which ends `main`, is not modelled.
- The bloom bit tests of `ethereum-bloom-filters`: a foreign library. They are the uninterpreted function parameters `topicIn` and `addrIn`.
- `performance.now()` timing and `toFixed`: floating point, used only in log lines.
- All console output, including the statistics line printed every 100 blocks and the count of unnecessary pairs within a needed call (log text only).
- The scheduler: each reconciliation is one atomic step, and the in-flight set lets them run in any order. The model does not describe how the event loop picks the order.
- `emitMissed` and the feed's `onError` callback: behaviour of the feed, not of this code. A replayed block is just another call of `OnBlock`.
- The counters are JavaScript numbers; they are modelled as unbounded naturals (no precision loss past 2^53).
- Tracker.BloomTracker.FetchFailed: a recovery the source does not implement, for a batch that fails as a whole (drop the job, change nothing, keep handling blocks); it stands for a fetch that never completes. `processBloom` is called without `await` or `.catch` (index.ts:64), so a rejected `multicall` (index.ts:89) is an unhandled promise rejection, which under Node's default policy ends the process. When viem instead reports the failure per entry (`allowFailure: true`, index.ts:91), every entry is absent, and `Reconcile` with an all-absent batch models that: no update, and `unnecessaryRpcCalls` goes up by one (`Reconciler.AllAbsentUpdatesNothing`).
- The third value returned by `getReserves` (the timestamp) is never read by the code and is not modelled.
- Pairs.Dedup: its key order is stated only when the configured list has no duplicates. For a list with duplicates, the contract says which keys are present but not that each keeps its first position, although the definition keeps first positions.
