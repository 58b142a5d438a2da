/**
 * The progress record of the client manager (SIPClientCRMgr::State), its three
 * read-only queries, and the two steps that rewrite it: the stage reset
 * `init_stage` and the bookkeeping that follows one fetch.
 */
module SipState {
  import opened SipTypes
  import opened SeqUtil

  /**
   * Per-shard cursors and completion flags of the active stage, the number of
   * shards seen complete, the active stage, and the seed cursors still waiting
   * for their stage to become active.
   */
  datatype State = State(
    markers: seq<string>,
    initialStageMarkers: map<StageId, seq<string>>,
    stageInfo: StageInfo,
    numComplete: int,
    done: seq<bool>)
  {
    /**
     * `stage_num_shards`: the active stage's shard count. No shard at or
     * above it is reported done, and the stage is complete when the counter
     * reaches it.
     */
    function StageNumShards(): (n: nat)
      ensures n == stageInfo.numShards
      ensures forall s :: n <= s ==> !IsShardDone(s)
      ensures StageComplete() <==> numComplete == n
    {
      stageInfo.numShards
    }

    /**
     * `is_shard_done`. The flag vector is read only for ids below the shard
     * count, and there it must hold the id (the requires); a shard is done
     * only below the count, and there exactly when its flag is set.
     */
    function IsShardDone(shardId: int): (r: bool)
      requires shardId < stageInfo.numShards ==> 0 <= shardId < |done|
      ensures r ==> 0 <= shardId < stageInfo.numShards && shardId < |done| && done[shardId]
      ensures shardId >= stageInfo.numShards ==> !r
      ensures 0 <= shardId < stageInfo.numShards ==> (r <==> done[shardId])
    {
      shardId < stageInfo.numShards && done[shardId]
    }

    /**
     * `stage_complete`: the counter has reached the shard count. While the
     * counter agrees with the flags, a complete stage has a flag slot for
     * every shard.
     */
    function StageComplete(): (r: bool)
      ensures r <==> numComplete == stageInfo.numShards
      ensures r && numComplete == CountTrue(done) ==> stageInfo.numShards <= |done|
    {
      numComplete == stageInfo.numShards
    }
  }

  /** A default-constructed State. */
  const InitialState: State := State([], map[], DefaultStageInfo, 0, [])

  /** The counter agrees with the flags. */
  predicate Consistent(st: State)
  {
    st.numComplete == CountTrue(st.done)
  }

  // ---------------------------------------------------------------------------
  // init_stage
  // ---------------------------------------------------------------------------

  /**
   * The state `init_stage(new_sid, info)` leaves. The seed is looked up under
   * `info.sid` (the `new_sid` argument plays no part); without a seed the cursor
   * vector is resized and then cleared, and the flag vector always is.
   */
  function InitStageStep(st: State, info: StageInfo): (r: State)
    ensures r.stageInfo == info && r.done == [] && r.numComplete == 0
    ensures Consistent(r)
    ensures r.initialStageMarkers == st.initialStageMarkers - {info.sid}
  {
    if info.sid in st.initialStageMarkers then
      st.(markers := st.initialStageMarkers[info.sid],
          initialStageMarkers := st.initialStageMarkers - {info.sid},
          done := [], numComplete := 0, stageInfo := info)
    else
      st.(markers := [], done := [], numComplete := 0, stageInfo := info)
  }

  /** What `init_stage` leaves, in both cases of the seed lookup. */
  lemma InitStageResult(st: State, info: StageInfo)
    ensures var r := InitStageStep(st, info);
      && r.stageInfo == info && r.done == [] && r.numComplete == 0
      && (info.sid in st.initialStageMarkers ==>
            r.markers == st.initialStageMarkers[info.sid] && info.sid !in r.initialStageMarkers)
      && (info.sid !in st.initialStageMarkers ==>
            r.markers == [] && r.initialStageMarkers == st.initialStageMarkers)
      && (forall sid :: sid != info.sid ==>
            (sid in r.initialStageMarkers <==> sid in st.initialStageMarkers))
      && (forall sid :: sid != info.sid && sid in st.initialStageMarkers ==>
            r.initialStageMarkers[sid] == st.initialStageMarkers[sid])
  {
  }

  /** The reset establishes the counter/flags agreement, and the stage starts incomplete unless it has no shards. */
  lemma InitStageConsistent(st: State, info: StageInfo)
    ensures Consistent(InitStageStep(st, info))
    ensures InitStageStep(st, info).StageComplete() <==> info.numShards == 0
  {
  }

  /**
   * After the reset no shard of a non-empty stage has a flag slot, so
   * `is_shard_done` can be asked about none of them; without a seed no shard
   * has a cursor either, so no fetch below the range bound is defined.
   */
  lemma InitStageLeavesShardsUntracked(p: Provider, st: State, info: StageInfo, max: int)
    ensures var r := InitStageStep(st, info);
      && |r.done| == 0
      && (info.sid !in st.initialStageMarkers ==>
            forall s :: s <= info.numShards ==> !FetchDefined(p, r, s, max))
  {
  }

  // ---------------------------------------------------------------------------
  // FetchCR::operate
  // ---------------------------------------------------------------------------

  /** The provider request FetchCR issues for a shard that passed the range check. */
  function FetchRequest(p: Provider, st: State, shardId: int, max: int): Reply<FetchResult>
    requires 0 <= shardId < |st.markers|
  {
    p.fetch(st.stageInfo.sid, shardId, st.markers[shardId], max)
  }

  /**
   * The vector reads FetchCR performs are in range: the cursor read for every
   * shard id the range check lets through, and the flag read when the provider
   * reports the shard done.
   */
  predicate FetchDefined(p: Provider, st: State, shardId: int, max: int)
  {
    shardId <= st.stageInfo.numShards ==>
      0 <= shardId < |st.markers| &&
      (var reply := FetchRequest(p, st, shardId, max);
       reply.Ok? && reply.value.done ==> shardId < |st.done|)
  }

  /** The status FetchCR returns, the result it stores, and the new state. */
  datatype FetchOutcome = FetchOutcome(ret: int, result: Option<FetchResult>, state: State)

  /** FetchCR::operate; the range check rejects only ids above the shard count. */
  function FetchStep(p: Provider, st: State, shardId: int, max: int): (out: FetchOutcome)
    requires FetchDefined(p, st, shardId, max)
    ensures out.ret <= 0
    ensures out.ret == 0 <==> out.result.Some?
    ensures out.ret != 0 ==> out.state == st
    ensures out.state.stageInfo == st.stageInfo
    ensures out.state.initialStageMarkers == st.initialStageMarkers
    ensures |out.state.markers| == |st.markers| && |out.state.done| == |st.done|
  {
    if shardId > st.stageInfo.numShards then FetchOutcome(-ERANGE, None, st)
    else
      match FetchRequest(p, st, shardId, max)
      case Err(c) => FetchOutcome(c, None, st)
      case Ok(res) =>
        var markers :=
          if |res.entries| > 0 then st.markers[shardId := res.entries[|res.entries| - 1].key]
          else st.markers;
        if res.done && !st.done[shardId] then
          FetchOutcome(0, Some(res),
            st.(markers := markers, done := st.done[shardId := true], numComplete := st.numComplete + 1))
        else
          FetchOutcome(0, Some(res), st.(markers := markers))
  }

  /**
   * -ERANGE is returned, with nothing changed, for every id above the shard
   * count and otherwise only when the provider itself failed with it; the id
   * equal to the shard count reaches the provider.
   */
  lemma FetchRangeCheck(p: Provider, st: State, shardId: int, max: int)
    requires FetchDefined(p, st, shardId, max)
    ensures var out := FetchStep(p, st, shardId, max);
      && (shardId > st.stageInfo.numShards ==> out == FetchOutcome(-ERANGE, None, st))
      && (out.ret == -ERANGE <==>
            shardId > st.stageInfo.numShards || FetchRequest(p, st, shardId, max) == Err(-ERANGE))
      && (shardId == st.stageInfo.numShards ==> out.ret == 0 || FetchRequest(p, st, shardId, max).Err?)
  {
  }

  /**
   * Ids the range check lets through but the vectors do not hold: every
   * negative id, and the id equal to the shard count when the cursors are
   * exactly one per shard.
   */
  lemma FetchOffByOne(p: Provider, st: State, shardId: int, max: int)
    requires shardId < 0 || (shardId == st.stageInfo.numShards && |st.markers| == st.stageInfo.numShards)
    ensures !(shardId > st.stageInfo.numShards)
    ensures !FetchDefined(p, st, shardId, max)
  {
  }

  /** A failed provider request is propagated and changes nothing. */
  lemma FetchProviderError(p: Provider, st: State, shardId: int, max: int)
    requires FetchDefined(p, st, shardId, max)
    requires shardId <= st.stageInfo.numShards && FetchRequest(p, st, shardId, max).Err?
    ensures FetchStep(p, st, shardId, max) ==
      FetchOutcome(FetchRequest(p, st, shardId, max).code, None, st)
  {
  }

  /**
   * On success the shard's cursor becomes the key of the last returned
   * entry exactly when some entry was returned; no other cursor, no seed and
   * not the active stage change.
   */
  lemma FetchCursor(p: Provider, st: State, shardId: int, max: int)
    requires FetchDefined(p, st, shardId, max)
    requires shardId <= st.stageInfo.numShards && FetchRequest(p, st, shardId, max).Ok?
    ensures var res := FetchRequest(p, st, shardId, max).value;
      var out := FetchStep(p, st, shardId, max);
      && out.ret == 0 && out.result == Some(res)
      && |out.state.markers| == |st.markers|
      && (|res.entries| > 0 ==> out.state.markers[shardId] == res.entries[|res.entries| - 1].key)
      && (|res.entries| == 0 ==> out.state.markers[shardId] == st.markers[shardId])
      && (forall s :: 0 <= s < |st.markers| && s != shardId ==> out.state.markers[s] == st.markers[s])
      && out.state.stageInfo == st.stageInfo
      && out.state.initialStageMarkers == st.initialStageMarkers
  {
  }

  /**
   * The counter goes up by one exactly when the provider reports the shard
   * done and its flag was clear, and then the flag becomes set; otherwise
   * counter and flags are left alone.
   */
  lemma FetchCompletion(p: Provider, st: State, shardId: int, max: int)
    requires FetchDefined(p, st, shardId, max)
    requires shardId <= st.stageInfo.numShards && FetchRequest(p, st, shardId, max).Ok?
    ensures var res := FetchRequest(p, st, shardId, max).value;
      var out := FetchStep(p, st, shardId, max);
      var newlyDone := res.done && !st.done[shardId];
      && (out.state.numComplete == st.numComplete + 1 <==> newlyDone)
      && (newlyDone ==> out.state.done == st.done[shardId := true])
      && (!newlyDone ==> out.state.done == st.done && out.state.numComplete == st.numComplete)
  {
  }

  /** Every fetch keeps the counter equal to the number of set flags. */
  lemma FetchPreservesConsistent(p: Provider, st: State, shardId: int, max: int)
    requires FetchDefined(p, st, shardId, max)
    requires Consistent(st)
    ensures Consistent(FetchStep(p, st, shardId, max).state)
    ensures |FetchStep(p, st, shardId, max).state.done| == |st.done|
  {
    if shardId <= st.stageInfo.numShards {
      var reply := FetchRequest(p, st, shardId, max);
      if reply.Ok? && reply.value.done && !st.done[shardId] {
        CountTrueSet(st.done, shardId);
      }
    }
  }

  /** A done report for a shard already done changes neither counter nor flags. */
  lemma FetchRepeatDone(p: Provider, st: State, shardId: int, max: int)
    requires FetchDefined(p, st, shardId, max)
    requires 0 <= shardId < |st.done| && st.done[shardId]
    ensures FetchStep(p, st, shardId, max).state.numComplete == st.numComplete
    ensures FetchStep(p, st, shardId, max).state.done == st.done
  {
  }

  /**
   * The provider answers `{entries: [], done: true}` twice for the same
   * shard: the first fetch counts the shard, the second changes nothing.
   */
  lemma FetchDoneTwice(p: Provider, st: State, shardId: int, max: int)
    requires 0 <= shardId < |st.markers| && 0 <= shardId < |st.done|
    requires shardId <= st.stageInfo.numShards && !st.done[shardId]
    requires FetchRequest(p, st, shardId, max) == Ok(FetchResult([], true))
    ensures FetchDefined(p, st, shardId, max)
    ensures var first := FetchStep(p, st, shardId, max);
      && first.state.numComplete == st.numComplete + 1
      && FetchDefined(p, first.state, shardId, max)
      && FetchStep(p, first.state, shardId, max).state == first.state
  {
  }

  /**
   * While no flag slot exists (as after every `init_stage`), no fetch the
   * model admits can be told the shard is done, so the counter stays at zero
   * and a stage with shards never completes.
   */
  lemma FetchWithoutFlagsNeverCompletes(p: Provider, st: State, shardId: int, max: int)
    requires st.done == [] && st.numComplete == 0
    requires FetchDefined(p, st, shardId, max)
    ensures var out := FetchStep(p, st, shardId, max).state;
      && out.done == [] && out.numComplete == 0
      && (out.StageComplete() <==> st.stageInfo.numShards == 0)
  {
  }

  // ---------------------------------------------------------------------------
  // Queries
  // ---------------------------------------------------------------------------

  /**
   * With one flag per shard and the counter in agreement, the stage is
   * complete exactly when every shard is done.
   */
  lemma StageCompleteIffAllShardsDone(st: State)
    requires Consistent(st) && |st.done| == st.stageInfo.numShards
    ensures st.StageComplete() <==>
      forall s :: 0 <= s < st.StageNumShards() ==> st.IsShardDone(s)
  {
    CountTrueAll(st.done);
    assert forall s :: 0 <= s < st.StageNumShards() ==> (st.IsShardDone(s) <==> st.done[s]);
  }
}
