/**
 * Values exchanged between the sync-info client manager and its provider:
 * stage identifiers and descriptors, fetch results, and the provider's
 * answers, each either a value or a negative status code.
 */
module SipTypes {

  /** A stage identifier (SIProvider::stage_id_t, a string). */
  type StageId = string

  /** SIProvider::StageType. `Unknown` stands for the value a default-constructed descriptor carries. */
  datatype StageType = Unknown | Full | Inc

  /** SIProvider::StageInfo, restricted to the fields the client manager reads. */
  datatype StageInfo = StageInfo(sid: StageId, stageType: StageType, numShards: nat)

  /**
   * The value-initialised StageInfo that `std::vector::resize` appends: an empty
   * id, a type that is not FULL, and no shards.
   */
  const DefaultStageInfo: StageInfo := StageInfo("", Unknown, 0)

  /** One entry of a fetch result; only its key matters to the client manager. */
  datatype Entry = Entry(key: string)

  /** SIProvider::fetch_result. */
  datatype FetchResult = FetchResult(entries: seq<Entry>, done: bool)

  /** A status the coroutines treat as a failure (`retcode < 0`). */
  type ErrCode = c: int | c < 0 witness -1

  /** What one provider request delivers: the value it stored, or its failure status. */
  datatype Reply<T> = Ok(value: T) | Err(code: ErrCode)

  datatype Option<T> = None | Some(value: T)

  /**
   * The provider's answers at the time of one client operation. Each field is
   * one request of SIProviderCRMgr: the stage list, the info of a stage, a fetch
   * (stage, shard, marker, max), the start marker and the current-state marker
   * of a shard, and the stage that follows a stage. Every request may fail:
   * the provider call itself, or the asynchronous layer that runs it.
   */
  datatype Provider = Provider(
    stageList: Reply<seq<StageId>>,
    stageInfo: StageId -> Reply<StageInfo>,
    fetch: (StageId, int, string, int) -> Reply<FetchResult>,
    startMarker: (StageId, int) -> Reply<string>,
    curState: (StageId, int) -> Reply<string>,
    nextStage: StageId -> Reply<StageId>)

  /** ERANGE on Linux. */
  const ERANGE: int := 34
}
