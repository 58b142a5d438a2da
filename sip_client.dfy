/**
 * SIPClientCRMgr: the stage catalog and the progress record, updated in place
 * by the stage reset, the fetch bookkeeping, stage promotion and marker
 * initialisation. Each method is proved to leave exactly what the step
 * function of the same operation describes.
 */
module SipClient {
  import opened SipTypes
  import opened SeqUtil
  import opened SipState
  import opened SipCatalog
  import opened SipInit

  class ClientMgr {
    /** The catalog: stage ids and their infos, two parallel vectors. */
    var stages: seq<StageId>
    var sinfo: seq<StageInfo>
    /** The progress record. */
    var state: State

    /** A manager with an empty catalog and a default-constructed State. */
    constructor ()
      ensures stages == [] && sinfo == [] && state == InitialState
    {
      stages, sinfo, state := [], [], InitialState;
    }

    /**
     * `init_stage(new_sid, info)`: adopts and erases the seed waiting under
     * `info.sid`, or resizes and clears the cursors; resizes and clears the
     * flags; zeroes the counter; makes `info` active. Always returns 0.
     */
    method InitStage(newSid: StageId, info: StageInfo) returns (ret: int)
      modifies this
      ensures ret == 0
      ensures stages == old(stages) && sinfo == old(sinfo)
      ensures state == InitStageStep(old(state), info)
    {
      var seeds := state.initialStageMarkers;
      if info.sid in seeds {
        state := state.(markers := seeds[info.sid], initialStageMarkers := seeds - {info.sid});
      } else {
        state := state.(markers := Resize(state.markers, info.numShards, ""));
        state := state.(markers := []);
      }
      state := state.(done := Resize(state.done, info.numShards, false));
      state := state.(done := []);
      state := state.(numComplete := 0);
      state := state.(stageInfo := info);
      ret := 0;
    }

    /**
     * FetchCR::operate for `shardId`: the range check, the provider fetch at
     * the shard's cursor, the cursor advance and the completion count.
     * `result` is what the fetch stored into the caller's result, if anything.
     */
    method Fetch(p: Provider, shardId: int, max: int) returns (ret: int, result: Option<FetchResult>)
      requires FetchDefined(p, state, shardId, max)
      modifies this
      ensures stages == old(stages) && sinfo == old(sinfo)
      ensures FetchOutcome(ret, result, state) == FetchStep(p, old(state), shardId, max)
      ensures Consistent(old(state)) ==> Consistent(state)
    {
      ghost var st0 := state;
      if shardId > state.stageInfo.numShards {
        return -ERANGE, None;
      }
      var reply := p.fetch(state.stageInfo.sid, shardId, state.markers[shardId], max);
      if reply.Err? {
        return reply.code, None;
      }
      var res := reply.value;
      if |res.entries| > 0 {
        state := state.(markers := state.markers[shardId := res.entries[|res.entries| - 1].key]);
      }
      if res.done && !state.done[shardId] {
        state := state.(numComplete := state.numComplete + 1);
        state := state.(done := state.done[shardId := res.done]);
      }
      ret, result := 0, Some(res);
      if Consistent(st0) {
        FetchPreservesConsistent(p, st0, shardId, max);
      }
    }

    /**
     * PromoteStageCR::operate: searches the catalog for the active stage and
     * installs the one after it, or grows `sinfo` and installs the new slot.
     * `newNumShards` is what is written through `new_num_shards` when the
     * caller passed one (`wantShards`).
     */
    method PromoteStage(p: Provider, wantShards: bool) returns (ret: int, newNumShards: Option<nat>)
      requires PromoteDefined(stages, sinfo, state.stageInfo.sid)
      modifies this
      ensures PromoteOutcome(ret, newNumShards, stages, sinfo, state) ==
        PromoteStep(p, wantShards, old(stages), old(sinfo), old(state))
      ensures Consistent(old(state)) ==> Consistent(state)
      ensures |old(stages)| <= |old(sinfo)| ==> |stages| <= |sinfo|
    {
      var found, i := SearchStage(stages, state.stageInfo.sid);
      if !found {
        i := |sinfo|;
        sinfo := Resize(sinfo, i + 1, DefaultStageInfo);
        // The queued next-stage request runs at the following suspension and
        // stores into stages[i] only on success.
        var next := p.nextStage(state.stageInfo.sid);
        if next.Ok? {
          stages := stages[i := next.value];
        } else {
          return next.code, None;
        }
      }
      ret := InitStage(stages[i], sinfo[i]);
      newNumShards := if wantShards then Some(state.StageNumShards()) else None;
    }

    /**
     * InitMarkersCR::operate: fetches the stage list (kept only when the
     * request succeeds) and every stage's info,
     * fills a seed entry for every stage, and installs the first stage.
     */
    method InitMarkers(p: Provider) returns (ret: int)
      modifies this
      ensures InitOutcome(ret, stages, sinfo, state) == InitMarkersStep(p, old(stages), old(sinfo), old(state))
      ensures Consistent(old(state)) ==> Consistent(state)
      ensures |old(stages)| <= |old(sinfo)| ==> |stages| <= |sinfo|
    {
      var list := p.stageList;
      if list.Err? {
        return list.code;
      }
      stages := list.value;
      if |stages| == 0 {
        return 0;
      }
      var status;
      sinfo, status := Gather(Resize(sinfo, |stages|, DefaultStageInfo), InfoReplies(p, stages));
      if status < 0 {
        return status;
      }
      ret := SeedAllStages(p);
      if ret < 0 {
        return;
      }
      ret := InitStage(stages[0], sinfo[0]);
    }

    /**
     * The stage loop of InitMarkersCR::operate: for each stage in catalog
     * order, decides `all_history` from the previous stage, resizes the
     * stage's seed entry to its shard count and fills it, one request per
     * shard; the first failure ends the loop with its status.
     */
    method SeedAllStages(p: Provider) returns (status: int)
      requires |sinfo| == |stages|
      modifies this
      ensures stages == old(stages) && sinfo == old(sinfo)
      ensures var j := FailedFrom(p, stages, sinfo, 0);
        && (j < |stages| ==>
              var rs := StageSeedReplies(p, stages, sinfo, j);
              status == rs[FirstError(rs)].code
              && state == old(state).(initialStageMarkers :=
                   SeedStages(old(state).initialStageMarkers, p, stages, sinfo, j + 1)))
        && (j == |stages| ==>
              status == 0
              && state == old(state).(initialStageMarkers :=
                   SeedStages(old(state).initialStageMarkers, p, stages, sinfo, |stages|)))
    {
      ghost var m0 := state.initialStageMarkers;
      var prev: Option<StageInfo> := None;
      var i := 0;
      while i < |stages|
        invariant 0 <= i <= |stages| == |sinfo|
        invariant stages == old(stages) && sinfo == old(sinfo)
        invariant prev == PrevOf(sinfo, i)
        invariant FailedFrom(p, stages, sinfo, 0) >= i
        invariant state == old(state).(initialStageMarkers := SeedStages(m0, p, stages, sinfo, i))
      {
        var allHistory := AllHistory(prev, sinfo[i]);
        var sid := sinfo[i].sid;
        var entry := Resize(Lookup(state.initialStageMarkers, sid), sinfo[i].numShards, "");
        ghost var rs := StageSeedReplies(p, stages, sinfo, i);
        assert SeedReplies(p, stages[i], allHistory, sinfo[i].numShards) == rs;
        var seeds, st := Gather(entry, SeedReplies(p, stages[i], allHistory, sinfo[i].numShards));
        state := state.(initialStageMarkers := state.initialStageMarkers[sid := seeds]);
        assert state.initialStageMarkers == SeedStages(m0, p, stages, sinfo, i + 1);
        if st < 0 {
          assert StageFails(p, stages, sinfo, i);
          assert FailedFrom(p, stages, sinfo, 0) == i;
          return st;
        }
        assert !StageFails(p, stages, sinfo, i);
        prev := Some(sinfo[i]);
        i := i + 1;
      }
      status := 0;
    }
  }
}
