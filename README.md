# Sync-info client manager: progress bookkeeping

This project models the client side of RGW's multi-stage sync-info pipeline,
`SIPClientCRMgr` in `src/rgw/rgw_cr_sip.cc`. The pipeline pulls change records
from a provider through an ordered list of stages. Each stage is split into
shards. The manager keeps:

- a catalog of stages, as two parallel vectors: `stages` (ids) and `sinfo` (descriptors);
- a progress record (`State`): one cursor and one done flag per shard of the
  active stage, a count of completed shards, the active stage's descriptor, and
  seed cursors waiting for later stages.

The model covers four operations:

- **`init_stage`** resets the record for a stage.
- **`FetchCR`** records the result of one fetch of one shard.
- **`PromoteStageCR`** moves to the next stage.
- **`InitMarkersCR`** reads the stage list and every stage's descriptor,
  computes seed cursors for every shard, and installs the first stage.

Three read-only queries are modelled too: `stage_num_shards`, `is_shard_done`
and `stage_complete`.

Layout:

- `sip_types.dfy`: stage ids, descriptors, fetch results, and the provider's
  replies. A reply is either a value or a negative status.
- `seq_util.dfy`: `std::vector::resize`, the result of a batch of requests
  that stops at the first failure, and the count of set flags.
- `sip_state.dfy`: the progress record with its queries, and the pure steps
  `InitStageStep` and `FetchStep`, with lemmas.
- `sip_catalog.dfy`: the catalog search and the pure step `PromoteStep`, with lemmas.
- `sip_init.dfy`: the seed decision (`all_history`), the seeding of every
  stage, and `InitMarkersStep`, with lemmas.
- `sip_client.dfy`: class `ClientMgr`, which holds `stages`, `sinfo` and
  `state` and updates them in place. Each method is proved to leave exactly
  the outcome of its pure step.

The provider is not modelled. Each operation takes a `Provider` value that
holds the answers the provider gives during that call: the stage list, and one
function per request kind (stage info, fetch, start marker, current-state
marker, next stage). Every request, the stage list included, either
delivers a value or fails with a negative status.

## Behaviour as written

The model follows the code, including its defects. Each defect is visible in a
precondition or a lemma. Reading a vector out of range is undefined behaviour,
so every such read becomes a precondition.

- `init_stage` empties both vectors. It resizes the cursor and flag vectors
  and then clears them. Without a seed, the stage starts with no cursors; the
  flags are always empty (`InitStageResult`).
- Later reads of `done` are therefore undefined. After a reset no shard has a
  flag slot (`InitStageLeavesShardsUntracked`). No fetch the model admits can
  then record completion, so a stage with shards never completes
  (`FetchWithoutFlagsNeverCompletes`).
- `init_stage` ignores its `new_sid` argument. It looks the seed up under the
  descriptor's id. `ClientMgr.InitStage` takes `newSid`, and its result does not
  depend on it.
- The fetch range check rejects only ids above the shard count. The id equal
  to the shard count, and every negative id, pass the check and read outside the
  cursor vector (`FetchOffByOne`). The provider can itself fail with -ERANGE,
  so -ERANGE comes back exactly when the id is above the count or the provider
  failed that way (`FetchRangeCheck`).
- The promotion search scans only indices up to |stages| - 2. An active stage
  held only at the last index takes the discovery branch
  (`LastStageTakesDiscoveryBranch`).
- The discovery branch has three slips:
  - it grows `sinfo` but not `stages`, then stores the next stage id at
    `stages[|old sinfo|]`. When the two vectors have the same length, that
    store is out of range, so promotion is defined only for a stage found
    before the last index (`PromoteDefinedOnParallelCatalog`). Marker
    initialisation leaves `sinfo` at least as long as `stages`, and promotion
    keeps it so (`ClientMgr.InitMarkers`, `ClientMgr.PromoteStage`). On such a
    catalog the discovery branch is never defined (`DiscoveryNeverDefined`);
  - the next-stage request is queued with `call` but no `yield`. The status
    check right after it sees the fresh coroutine's status, 0. The `yield` at
    line 413 then runs the queued request, and the check at line 414 sees that
    request's status;
  - the stage-info coroutine is created but never called. The new `sinfo` slot
    keeps its default value, and that default becomes the active stage
    (`PromoteDiscovery`).

Three consequences a caller may not expect:

- the reset does not size the vectors to the shard count;
- promotion never appends to `stages` and never fetches the new stage's info;
- a failed promotion or initialisation does leave changes behind. Promotion
  leaves the grown `sinfo`. Initialisation leaves the new stage list, the
  descriptors fetched so far, and the seed entries written so far.

Assumptions where a needed definition is not part of this model:

- `rgw_sync_info.h` is not part of this model. A default-constructed
  `StageInfo` is taken to have an empty id, a type that is not FULL, and zero
  shards (`DefaultStageInfo`).
- The `prev` descriptor before the first stage is modelled as `None`, which
  counts as not FULL.
- `StageInfo::num_shards` is an `int` (lines 161, 247), filled by
  `get_stage_info`, whose code is not part of this model. The model takes
  every shard count to be non-negative (a `nat`). With a negative count, the
  `done.resize` at line 357 would throw on every reset, and the initialisation
  and fetch paths would resize with a negative size too; the `nat` type
  excludes that case.

## Model

| member | source | states |
|---|---|---|
| SipClient.ClientMgr.constructor | src/rgw/rgw_cr_sip.cc:243-245 | The catalog is empty and the progress record is default-constructed: no cursors or flags, a zero counter, no seeds. |
| SipClient.ClientMgr.InitStage | src/rgw/rgw_cr_sip.cc:342-364 | Updates the record in place to exactly `InitStageStep(old state, info)`, whatever `newSid` is. The catalog is unchanged. The result is 0. |
| SipClient.ClientMgr.Fetch | src/rgw/rgw_cr_sip.cc:366-393 | Requires the cursor read (and, on a done report, the flag read) to be in range. Returns the status and stored result of `FetchStep` and leaves its state. Keeps numComplete == count of set flags. The catalog is unchanged. |
| SipClient.ClientMgr.PromoteStage | src/rgw/rgw_cr_sip.cc:395-432 | Requires the vector accesses of the branch taken to be in range. Leaves status, reported shard count, catalog and record exactly as `PromoteStep` says. Keeps the counter equal to the set flags, and keeps `sinfo` at least as long as `stages`. |
| SipClient.ClientMgr.InitMarkers | src/rgw/rgw_cr_sip.cc:273-340 | Leaves status, stage list, descriptors and record exactly as `InitMarkersStep` says: stage-list failure, empty list, stage-info failure, seed failure, or success with the first stage installed. Keeps the counter equal to the set flags, and keeps `sinfo` at least as long as `stages`. |
| SipClient.ClientMgr.SeedAllStages | src/rgw/rgw_cr_sip.cc:304-329 | Fills one seed entry per stage, in catalog order, with `all_history` taken from the previous stage. It stops at the first stage with a failing request, returns that status, and keeps the entries written up to and including that stage. |
| SipInit.Gather | src/rgw/rgw_cr_sip.cc:309-321 | One request per slot in index order. Slots before the first failure hold their replies, the rest keep their old values. The status is the first failure's, or 0. |
| SipCatalog.SearchStage | src/rgw/rgw_cr_sip.cc:398-404 | Found exactly when the active id is at some index k <= \|stages\|-2; then i == k+1 for the first such k. Not found means no index below \|stages\|-1 holds it. Agrees with `KnownIndex`. |
| SipCatalog.KnownIndex | src/rgw/rgw_cr_sip.cc:398-404 | The first position, among all but the last entry, holding the active id; none when no such position holds it. |
| SipState.InitStageResult | src/rgw/rgw_cr_sip.cc:348-361 | With a seed under info.sid, the cursors become that seed and only that entry is erased. Without one, the cursors are empty and the seeds are untouched. Flags are emptied, the counter is 0, info becomes active. |
| SipState.InitStageConsistent | src/rgw/rgw_cr_sip.cc:357-361 | After a reset, the counter equals the number of set flags, and the stage is complete exactly when it has no shards. |
| SipState.InitStageLeavesShardsUntracked | src/rgw/rgw_cr_sip.cc:353-358 | After a reset there are no flag slots. Without a seed, no fetch of an id up to the shard count is defined. |
| SipState.FetchRangeCheck | src/rgw/rgw_cr_sip.cc:369-376 | Ids above the shard count give -ERANGE with nothing changed. -ERANGE is returned iff the id is above the count or the provider failed with -ERANGE. The id equal to the count reaches the provider. |
| SipState.FetchOffByOne | src/rgw/rgw_cr_sip.cc:369-373 | Negative ids, and the id equal to the shard count when there is one cursor per shard, pass the range check, but the cursor read is out of range. |
| SipState.FetchProviderError | src/rgw/rgw_cr_sip.cc:373-376 | A failed provider fetch returns its status. Cursors, flags, counter and seeds are unchanged, and no result is stored. |
| SipState.FetchCursor | src/rgw/rgw_cr_sip.cc:378-380 | On success, the shard's cursor becomes the last entry's key iff entries were returned, and stays as it was otherwise. No other cursor, no seed and not the active stage change. |
| SipState.FetchCompletion | src/rgw/rgw_cr_sip.cc:382-387 | The counter rises by one iff the result reports done and the shard's flag was clear; then the flag is set. Otherwise counter and flags are unchanged. |
| SipState.FetchPreservesConsistent | src/rgw/rgw_cr_sip.cc:382-387 | Every fetch keeps the counter equal to the number of set flags, and keeps the flag vector's length. |
| SipState.FetchRepeatDone | src/rgw/rgw_cr_sip.cc:384-387 | A done report for a shard already done changes neither the counter nor the flags. |
| SipState.FetchDoneTwice | src/rgw/rgw_cr_sip.cc:378-387 | The provider answers `{[], done}` twice for one shard. The first fetch raises the counter by one; the second leaves the state exactly as it was. |
| SipState.FetchWithoutFlagsNeverCompletes | src/rgw/rgw_cr_sip.cc:382-387 | With no flag slots and a zero counter, every admitted fetch keeps both. The stage is then complete only if it has no shards. |
| SipState.State.StageNumShards | src/rgw/rgw_cr_sip.cc:246-248 | The active descriptor's shard count, never negative. No shard at or above it is reported done, and the stage is complete exactly when the counter equals it. |
| SipState.State.IsShardDone | src/rgw/rgw_cr_sip.cc:250-253 | Requires the read of `done` to be in range for every id below the shard count (a negative id is such a read). A shard is done only below the count and when its flag is set; below the count, done is exactly its flag. |
| SipState.State.StageComplete | src/rgw/rgw_cr_sip.cc:255-257 | Complete iff the counter equals the shard count. While the counter equals the set flags, a complete stage has a flag slot for every shard. |
| SipState.InitStageStep | src/rgw/rgw_cr_sip.cc:342-364 | The reset makes `info` active with no flags and a zero counter, so the counter agrees with the flags. The seed map loses exactly the entry under `info.sid`. |
| SipState.FetchStep | src/rgw/rgw_cr_sip.cc:366-393 | The status is 0 or negative, and 0 exactly when a result is stored. On a non-zero status the state is unchanged. The active stage and the seeds never change, nor do the lengths of the cursor and flag vectors. |
| SipState.StageCompleteIffAllShardsDone | src/rgw/rgw_cr_sip.cc:250-257 | With one flag per shard and the counter equal to the set flags, `stage_complete` holds iff `is_shard_done` holds for every shard. |
| SipCatalog.PromoteKnownStage | src/rgw/rgw_cr_sip.cc:398-426 | First match at k below the last index: status 0, catalog unchanged, the record becomes `init_stage` of sinfo[k+1] (taking its waiting seed), and the new shard count is reported when asked for. |
| SipCatalog.PromoteDiscovery | src/rgw/rgw_cr_sip.cc:406-426 | Search misses: sinfo gains exactly one default slot and stages keeps its length. A failed next-stage request returns its status with the record unchanged. Otherwise the next id is stored at stages[\|old sinfo\|] and the default slot becomes active, with 0 shards. |
| SipCatalog.LastStageTakesDiscoveryBranch | src/rgw/rgw_cr_sip.cc:398-409 | An active id held only at the last index is not found. With vectors of equal length, promotion is then undefined. |
| SipCatalog.PromoteDefinedOnParallelCatalog | src/rgw/rgw_cr_sip.cc:398-419 | With vectors of equal length, promotion is defined iff the active id is at some index below the last. |
| SipCatalog.DiscoveryNeverDefined | src/rgw/rgw_cr_sip.cc:406-409 | When `sinfo` is at least as long as `stages` and the search misses, promotion is undefined: the store at `stages[\|sinfo\|]` is out of range. |
| SipCatalog.PromoteStep | src/rgw/rgw_cr_sip.cc:395-432 | `stages` keeps its length and `sinfo` grows by at most one. The status is 0 or negative. On failure the record is unchanged and no shard count is reported. On success a descriptor from `sinfo` is active, with no flags and a zero counter, and its shard count is reported when asked for. The counter stays equal to the set flags. |
| SipInit.AllHistory | src/rgw/rgw_cr_sip.cc:305-306 | `all_history` is false exactly when the previous stage is FULL and the current one is INC. With no previous stage it is true. |
| SipInit.InitMarkersStep | src/rgw/rgw_cr_sip.cc:273-340 | The status is 0 or negative. A failed stage-list request returns its status and changes nothing. Otherwise the stage list is stored, and `sinfo` ends at least as long as it. A failure keeps the active stage, cursors, flags and counter. A success with a non-empty list has one descriptor per stage and installs the first, with no flags and a zero counter. The counter stays equal to the set flags. |
| SipInit.SeedRequestSource | src/rgw/rgw_cr_sip.cc:305-311 | Stage i issues one seed request per shard index below its shard count. Each asks for the current-state marker iff stage i-1 is FULL and stage i is INC, and for the start marker otherwise. |
| SipInit.SeededEntry | src/rgw/rgw_cr_sip.cc:307-321 | Take a stage t whose requests all succeeded and whose id no later seeded stage reuses. Its entry is keyed by its descriptor's id, has one cursor per shard, and holds exactly its replies. |
| SipInit.SeedStagesOtherKeys | src/rgw/rgw_cr_sip.cc:307-308 | Seeding leaves the entry of every id that no seeded stage has. |
| SipInit.InitMarkersEmptyCatalog | src/rgw/rgw_cr_sip.cc:276-283 | An empty stage list returns 0 and changes nothing else. |
| SipInit.InitMarkersStatus | src/rgw/rgw_cr_sip.cc:276-336 | Success iff the stage-list request succeeds and the list is empty or every stage-info request and every seed request succeeds. A failure returns a negative status and leaves the active stage, cursors, flags and counter as they were. |
| SipInit.InitMarkersActivatesFirstStage | src/rgw/rgw_cr_sip.cc:285-331 | On success, sinfo holds every stage's provider descriptor. The first stage is active, with no flags and a zero counter, and its seed entry is consumed. When no later stage reuses its id, its cursors are its start markers, one per shard. |
| SipInit.InitMarkersPendingSeeds | src/rgw/rgw_cr_sip.cc:304-329 | On success, each later stage whose id differs from the first stage's and from every later stage's has a waiting entry with one cursor per shard. Each cursor is a current-state marker iff the previous stage is FULL and this one INC, and a start marker otherwise. |
| SipInit.TwoStageScenario | src/rgw/rgw_cr_sip.cc:304-426 | Catalog [s0 (FULL, 2), s1 (INC, 2)]: s0 becomes active with its two start markers. Promotion then activates s1 with its two current-state markers and reports 2 shards. |

## Left out

- `RGWSafeRetAsyncCR` and `SIProviderCRMgr` (lines 9-144) are async wrappers over provider calls whose implementation is not shown. A `Provider` value stands for their answers. A request stores its value only on a status >= 0, as the wrapper does.
- Bounded fan-out through `yield_spawn_window` and `drain_all_cb` exists for concurrency. Each batch is modelled as a sequential run that checks every reply as it arrives and stops at the first failure. Which failures the real spawn window notices, and that the statuses collected by the final drain are not checked, are not modelled.
- The coroutine machinery (`reenter`, `yield`, `call`, `retcode`, `set_cr_*`) and `ldout` logging are left out. FetchCR returns -ERANGE directly rather than through `set_cr_error`; the model takes that value as the operation's status, and how the coroutine stack treats it is not modelled.
- The stage-info coroutine created at line 413 is never run or freed. The model captures that it never runs, but not the leak.
- PromoteStageCR checks the status of `init_stage` (lines 419-422). The model omits the check because `init_stage` always returns 0 (`ClientMgr.InitStage` ensures it).
- Provider semantics are left out: entry order, whether `get_next_stage` is idempotent, and what markers contain (opaque strings).
- Integer widths: a negative `num_shards` is excluded by the `nat` type, as listed under the assumptions above. The overflow of `num_complete` is not modelled; under `Consistent` it never exceeds the flag count.
- InitMarkersActivatesFirstStage: the first stage's cursors are stated only when no later stage's descriptor reuses its id. With a repeated id, the later stage's seeds overwrite the entry, as `SeedStages` models. The other clauses hold unconditionally.
- InitMarkersPendingSeeds: stated only for a stage whose descriptor id differs from the first stage's (whose entry `init_stage` consumes) and from every later stage's (whose seeds overwrite the entry).
