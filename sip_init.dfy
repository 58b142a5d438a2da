/**
 * Marker initialisation, InitMarkersCR::operate: the stage list, the info of
 * every stage, a seed cursor for every shard of every stage, and the
 * installation of the first stage.
 *
 * Each batch of provider requests is modelled as a sequential run that stops
 * at the first failure: the requests before it have stored their values, the
 * failed one and those after it have stored nothing.
 */
module SipInit {
  import opened SipTypes
  import opened SeqUtil
  import opened SipState
  import opened SipCatalog

  /**
   * `all_history`: a stage replays from its start markers unless the stage
   * before it is FULL and it is INC. Before the first stage there is no
   * previous stage, which counts as not FULL.
   */
  function AllHistory(prev: Option<StageInfo>, cur: StageInfo): (r: bool)
    ensures !r <==> prev.Some? && prev.value.stageType == Full && cur.stageType == Inc
    ensures prev.None? ==> r
  {
    prev.None? || prev.value.stageType != Full || cur.stageType != Inc
  }

  /** The value of `prev` when stage `i` is reached. */
  function PrevOf(infos: seq<StageInfo>, i: nat): Option<StageInfo>
    requires i <= |infos|
  {
    if i == 0 then None else Some(infos[i - 1])
  }

  /** The stage-info request for every catalog entry. */
  function InfoReplies(p: Provider, stages: seq<StageId>): seq<Reply<StageInfo>>
  {
    seq(|stages|, k requires 0 <= k < |stages| => p.stageInfo(stages[k]))
  }

  /** One seed request per shard index: the start marker or the current-state marker. */
  function SeedReplies(p: Provider, sid: StageId, allHistory: bool, numShards: nat): seq<Reply<string>>
  {
    seq(numShards, k => if allHistory then p.startMarker(sid, k) else p.curState(sid, k))
  }

  /** The seed requests of stage `i`, with its shard count taken from its info. */
  function StageSeedReplies(p: Provider, stages: seq<StageId>, infos: seq<StageInfo>, i: nat): seq<Reply<string>>
    requires |infos| == |stages| && i < |stages|
  {
    SeedReplies(p, stages[i], AllHistory(PrevOf(infos, i), infos[i]), infos[i].numShards)
  }

  /** `std::map::operator[]` on the seed map: a missing entry reads as an empty vector. */
  function Lookup(m: map<StageId, seq<string>>, sid: StageId): seq<string>
  {
    if sid in m then m[sid] else []
  }

  /**
   * The seed map after stage `i`'s requests: its entry, keyed by the id in the
   * stage's info, is resized to the shard count and filled by the requests.
   */
  function SeedStage(m: map<StageId, seq<string>>, p: Provider, stages: seq<StageId>, infos: seq<StageInfo>, i: nat): map<StageId, seq<string>>
    requires |infos| == |stages| && i < |stages|
  {
    var sid := infos[i].sid;
    m[sid := Filled(Resize(Lookup(m, sid), infos[i].numShards, ""), StageSeedReplies(p, stages, infos, i))]
  }

  /** The seed map after stages `0 .. i-1`. */
  function SeedStages(m: map<StageId, seq<string>>, p: Provider, stages: seq<StageId>, infos: seq<StageInfo>, i: nat): map<StageId, seq<string>>
    requires |infos| == |stages| && i <= |stages|
  {
    if i == 0 then m else SeedStage(SeedStages(m, p, stages, infos, i - 1), p, stages, infos, i - 1)
  }

  /** Some seed request of stage `i` fails. */
  predicate StageFails(p: Provider, stages: seq<StageId>, infos: seq<StageInfo>, i: nat)
    requires |infos| == |stages| && i < |stages|
  {
    FirstError(StageSeedReplies(p, stages, infos, i)) < infos[i].numShards
  }

  /** The first stage at or after `i` with a failing seed request, or `|stages|`. */
  function FailedFrom(p: Provider, stages: seq<StageId>, infos: seq<StageInfo>, i: nat): (j: nat)
    requires |infos| == |stages| && i <= |stages|
    ensures i <= j <= |stages|
    ensures forall t :: i <= t < j ==> !StageFails(p, stages, infos, t)
    ensures j < |stages| ==> StageFails(p, stages, infos, j)
    decreases |stages| - i
  {
    if i == |stages| || StageFails(p, stages, infos, i) then i else FailedFrom(p, stages, infos, i + 1)
  }

  /** The status, catalog and state InitMarkersCR leaves. */
  datatype InitOutcome = InitOutcome(ret: int, stages: seq<StageId>, sinfo: seq<StageInfo>, state: State)

  /**
   * InitMarkersCR::operate. A failed stage-list request ends the operation
   * with its status and the catalog as it was; an empty stage list ends it
   * with nothing else changed. Otherwise `sinfo` is resized to the list and
   * filled by the stage-info requests; then, stage by stage, the seed entry is
   * filled by the seed requests; a failure ends the operation with its status
   * and with what was stored up to it; after the last stage the first stage is
   * installed through `init_stage`.
   */
  function InitMarkersStep(p: Provider, stages0: seq<StageId>, sinfo: seq<StageInfo>, st: State): (out: InitOutcome)
    ensures out.ret <= 0
    ensures p.stageList.Err? ==> out == InitOutcome(p.stageList.code, stages0, sinfo, st)
    ensures p.stageList.Ok? ==> out.stages == p.stageList.value
    ensures |stages0| <= |sinfo| ==> |out.stages| <= |out.sinfo|
    ensures out.ret != 0 ==>
      && out.state.markers == st.markers && out.state.done == st.done
      && out.state.numComplete == st.numComplete && out.state.stageInfo == st.stageInfo
    ensures out.ret == 0 && |out.stages| > 0 ==>
      && |out.sinfo| == |out.stages|
      && out.state.stageInfo == out.sinfo[0]
      && out.state.done == [] && out.state.numComplete == 0
    ensures Consistent(st) ==> Consistent(out.state)
  {
    if p.stageList.Err? then InitOutcome(p.stageList.code, stages0, sinfo, st) else
    var stages := p.stageList.value;
    if |stages| == 0 then InitOutcome(0, stages, sinfo, st)
    else
      var replies := InfoReplies(p, stages);
      var infos := Filled(Resize(sinfo, |stages|, DefaultStageInfo), replies);
      var e := FirstError(replies);
      if e < |stages| then InitOutcome(replies[e].code, stages, infos, st)
      else
        var j := FailedFrom(p, stages, infos, 0);
        if j < |stages| then
          var rs := StageSeedReplies(p, stages, infos, j);
          InitOutcome(rs[FirstError(rs)].code, stages, infos,
            st.(initialStageMarkers := SeedStages(st.initialStageMarkers, p, stages, infos, j + 1)))
        else
          InitOutcome(0, stages, infos,
            InitStageStep(st.(initialStageMarkers := SeedStages(st.initialStageMarkers, p, stages, infos, |stages|)), infos[0]))
  }

  /**
   * One batch of provider requests storing into the slots of `base`, one
   * request per slot in index order; the first failure ends the batch and is
   * returned.
   */
  method Gather<T>(base: seq<T>, rs: seq<Reply<T>>) returns (filled: seq<T>, status: int)
    requires |base| == |rs|
    ensures |filled| == |rs|
    ensures forall k :: 0 <= k < FirstError(rs) ==> filled[k] == rs[k].value
    ensures forall k :: FirstError(rs) <= k < |rs| ==> filled[k] == base[k]
    ensures FirstError(rs) < |rs| ==> status == rs[FirstError(rs)].code
    ensures FirstError(rs) == |rs| ==> status == 0
    ensures filled == Filled(base, rs)
  {
    filled, status := base, 0;
    var k := 0;
    while k < |rs|
      invariant 0 <= k <= |rs|
      invariant |filled| == |rs|
      invariant forall j :: 0 <= j < k ==> rs[j].Ok? && filled[j] == rs[j].value
      invariant forall j :: k <= j < |rs| ==> filled[j] == base[j]
    {
      if rs[k].Err? {
        FirstErrorAt(rs, k);
        status := rs[k].code;
        return;
      }
      filled := filled[k := rs[k].value];
      k := k + 1;
    }
    FirstErrorAt(rs, |rs|);
  }

  // ---------------------------------------------------------------------------
  // Lemmas
  // ---------------------------------------------------------------------------

  /**
   * Stage `i` asks for one seed per shard index below its shard count, and
   * asks for the current-state marker exactly when stage `i - 1` is FULL and
   * stage `i` is INC; every other stage, the first included, asks for the
   * start marker.
   */
  lemma SeedRequestSource(p: Provider, stages: seq<StageId>, infos: seq<StageInfo>, i: nat, k: int)
    requires |infos| == |stages| && i < |stages|
    requires 0 <= k < infos[i].numShards
    ensures |StageSeedReplies(p, stages, infos, i)| == infos[i].numShards
    ensures StageSeedReplies(p, stages, infos, i)[k] ==
      if i > 0 && infos[i - 1].stageType == Full && infos[i].stageType == Inc
      then p.curState(stages[i], k) else p.startMarker(stages[i], k)
  {
  }

  /**
   * After stages `0 .. i-1` have been seeded, a stage `t < i` whose requests
   * all succeeded and whose id no later stage below `i` reuses has an entry
   * holding exactly its replies, one per shard.
   */
  lemma {:induction false} SeededEntry(m: map<StageId, seq<string>>, p: Provider, stages: seq<StageId>, infos: seq<StageInfo>, t: nat, i: nat)
    requires |infos| == |stages| && t < i <= |stages|
    requires !StageFails(p, stages, infos, t)
    requires forall u :: t < u < i ==> infos[u].sid != infos[t].sid
    ensures var e := SeedStages(m, p, stages, infos, i);
      var rs := StageSeedReplies(p, stages, infos, t);
      && infos[t].sid in e
      && |e[infos[t].sid]| == infos[t].numShards
      && forall k :: 0 <= k < infos[t].numShards ==> rs[k].Ok? && e[infos[t].sid][k] == rs[k].value
  {
    var sid := infos[t].sid;
    if i == t + 1 {
      var before := SeedStages(m, p, stages, infos, t);
      var rs := StageSeedReplies(p, stages, infos, t);
      var base := Resize(Lookup(before, sid), infos[t].numShards, "");
      assert SeedStages(m, p, stages, infos, i) == before[sid := Filled(base, rs)];
      FilledAllOk(base, rs);
    } else {
      SeededEntry(m, p, stages, infos, t, i - 1);
      var before := SeedStages(m, p, stages, infos, i - 1);
      assert infos[i - 1].sid != sid;
      assert SeedStages(m, p, stages, infos, i) == SeedStage(before, p, stages, infos, i - 1);
      assert SeedStages(m, p, stages, infos, i)[sid] == before[sid];
    }
  }

  /** Seeding stages `0 .. i-1` leaves every entry of an id none of them has. */
  lemma {:induction false} SeedStagesOtherKeys(m: map<StageId, seq<string>>, p: Provider, stages: seq<StageId>, infos: seq<StageInfo>, i: nat, sid: StageId)
    requires |infos| == |stages| && i <= |stages|
    requires forall u :: 0 <= u < i ==> infos[u].sid != sid
    ensures sid in SeedStages(m, p, stages, infos, i) <==> sid in m
    ensures sid in m ==> SeedStages(m, p, stages, infos, i)[sid] == m[sid]
  {
    if i > 0 {
      SeedStagesOtherKeys(m, p, stages, infos, i - 1, sid);
      assert infos[i - 1].sid != sid;
    }
  }

  /** With an empty stage list nothing but the (empty) list changes. */
  lemma InitMarkersEmptyCatalog(p: Provider, stages: seq<StageId>, sinfo: seq<StageInfo>, st: State)
    requires p.stageList == Ok([])
    ensures InitMarkersStep(p, stages, sinfo, st) == InitOutcome(0, [], sinfo, st)
  {
  }

  /**
   * The operation succeeds exactly when the stage-list request succeeds and
   * the list is empty or every stage-info request and every seed request
   * succeeds; a failure returns a negative status and leaves the active
   * stage, its cursors, flags and counter as they were.
   */
  lemma InitMarkersStatus(p: Provider, stages: seq<StageId>, sinfo: seq<StageInfo>, st: State)
    ensures var out := InitMarkersStep(p, stages, sinfo, st);
      && (out.ret == 0 <==>
            p.stageList.Ok? &&
            (|p.stageList.value| == 0 ||
             (FirstError(InfoReplies(p, p.stageList.value)) == |p.stageList.value| &&
              |out.sinfo| == |p.stageList.value| &&
              forall t :: 0 <= t < |p.stageList.value| ==> !StageFails(p, p.stageList.value, out.sinfo, t))))
      && (out.ret != 0 ==>
            && out.ret < 0
            && out.state.markers == st.markers && out.state.done == st.done
            && out.state.numComplete == st.numComplete && out.state.stageInfo == st.stageInfo)
  {
    if p.stageList.Ok? && |p.stageList.value| > 0 {
      var list := p.stageList.value;
      var replies := InfoReplies(p, list);
      var infos := Filled(Resize(sinfo, |list|, DefaultStageInfo), replies);
      if FirstError(replies) == |list| {
        var j := FailedFrom(p, list, infos, 0);
        if j < |list| {
          assert StageFails(p, list, infos, j);
        }
      }
    }
  }

  /**
   * On success `sinfo` holds the provider's info of every listed stage, and
   * the first stage is active, with no flags, a zero counter, and its seed
   * entry consumed. When no later stage reuses its id, its cursors are the
   * start markers of its shards.
   */
  lemma InitMarkersActivatesFirstStage(p: Provider, stages: seq<StageId>, sinfo: seq<StageInfo>, st: State)
    requires InitMarkersStep(p, stages, sinfo, st).ret == 0
    requires p.stageList.Ok? && |p.stageList.value| > 0
    ensures var out := InitMarkersStep(p, stages, sinfo, st);
      var list := p.stageList.value;
      && |out.sinfo| == |list|
      && (forall k :: 0 <= k < |list| ==> p.stageInfo(list[k]) == Ok(out.sinfo[k]))
      && out.state.stageInfo == out.sinfo[0]
      && out.state.done == [] && out.state.numComplete == 0
      && out.sinfo[0].sid !in out.state.initialStageMarkers
      && ((forall u :: 0 < u < |out.sinfo| ==> out.sinfo[u].sid != out.sinfo[0].sid) ==>
            && |out.state.markers| == out.sinfo[0].numShards
            && forall k :: 0 <= k < out.sinfo[0].numShards ==> p.startMarker(list[0], k) == Ok(out.state.markers[k]))
  {
    var list := p.stageList.value;
    var replies := InfoReplies(p, list);
    var infos := Filled(Resize(sinfo, |list|, DefaultStageInfo), replies);
    InitMarkersStatus(p, stages, sinfo, st);
    assert FirstError(replies) == |list|;
    assert forall k :: 0 <= k < |list| ==> replies[k] == p.stageInfo(list[k]);
    if forall u :: 0 < u < |infos| ==> infos[u].sid != infos[0].sid {
      SeededEntry(st.initialStageMarkers, p, list, infos, 0, |list|);
    }
  }

  /**
   * On success a later stage whose id neither the first stage (whose entry
   * is consumed) nor any stage after it (whose entry would replace it) has
   * keeps a pending seed entry holding exactly its replies, one per shard;
   * each is a current-state marker when the stage before it is FULL and it is
   * INC, else a start marker.
   */
  lemma InitMarkersPendingSeeds(p: Provider, stages: seq<StageId>, sinfo: seq<StageInfo>, st: State, t: nat)
    requires InitMarkersStep(p, stages, sinfo, st).ret == 0
    requires p.stageList.Ok? && 0 < t < |p.stageList.value|
    requires var infos := InitMarkersStep(p, stages, sinfo, st).sinfo;
      && infos[0].sid != infos[t].sid
      && forall u :: t < u < |infos| ==> infos[u].sid != infos[t].sid
    ensures var out := InitMarkersStep(p, stages, sinfo, st);
      var infos := out.sinfo;
      var list := p.stageList.value;
      && infos[t].sid in out.state.initialStageMarkers
      && |out.state.initialStageMarkers[infos[t].sid]| == infos[t].numShards
      && forall k :: 0 <= k < infos[t].numShards ==>
           (if infos[t - 1].stageType == Full && infos[t].stageType == Inc
            then p.curState(list[t], k) else p.startMarker(list[t], k))
           == Ok(out.state.initialStageMarkers[infos[t].sid][k])
  {
    var list := p.stageList.value;
    var replies := InfoReplies(p, list);
    var infos := Filled(Resize(sinfo, |list|, DefaultStageInfo), replies);
    InitMarkersStatus(p, stages, sinfo, st);
    assert |infos| == |list|;
    SeededEntry(st.initialStageMarkers, p, list, infos, t, |list|);
    forall k | 0 <= k < infos[t].numShards
      ensures StageSeedReplies(p, list, infos, t)[k] ==
        if infos[t - 1].stageType == Full && infos[t].stageType == Inc
        then p.curState(list[t], k) else p.startMarker(list[t], k)
    {
      SeedRequestSource(p, list, infos, t, k);
    }
  }

  /**
   * The two-stage catalog [s0 (FULL, 2 shards), s1 (INC, 2 shards)]: s0 is
   * seeded from start markers and becomes active; promoting then activates s1
   * with its current-state markers and reports its two shards.
   */
  lemma TwoStageScenario(p: Provider, stages: seq<StageId>, sinfo: seq<StageInfo>, st: State)
    requires p.stageList == Ok(["s0", "s1"])
    requires p.stageInfo("s0") == Ok(StageInfo("s0", Full, 2))
    requires p.stageInfo("s1") == Ok(StageInfo("s1", Inc, 2))
    requires forall k :: 0 <= k < 2 ==> p.startMarker("s0", k).Ok? && p.curState("s1", k).Ok?
    ensures var out := InitMarkersStep(p, stages, sinfo, st);
      && out.ret == 0
      && out.sinfo == [StageInfo("s0", Full, 2), StageInfo("s1", Inc, 2)]
      && out.state.stageInfo == StageInfo("s0", Full, 2)
      && out.state.markers == [p.startMarker("s0", 0).value, p.startMarker("s0", 1).value]
      && PromoteDefined(out.stages, out.sinfo, out.state.stageInfo.sid)
      && var next := PromoteStep(p, true, out.stages, out.sinfo, out.state);
         && next.ret == 0 && next.newNumShards == Some(2)
         && next.stages == out.stages && next.sinfo == out.sinfo
         && next.state.stageInfo == StageInfo("s1", Inc, 2)
         && next.state.markers == [p.curState("s1", 0).value, p.curState("s1", 1).value]
  {
    var list := p.stageList.value;
    var replies := InfoReplies(p, list);
    var infos := Filled(Resize(sinfo, |list|, DefaultStageInfo), replies);
    assert FirstError(replies) == 2 by {
      FirstErrorAt(replies, 2);
    }
    assert infos == [StageInfo("s0", Full, 2), StageInfo("s1", Inc, 2)];
    var s0 := StageSeedReplies(p, list, infos, 0);
    var s1 := StageSeedReplies(p, list, infos, 1);
    assert s0 == [p.startMarker("s0", 0), p.startMarker("s0", 1)];
    assert s1 == [p.curState("s1", 0), p.curState("s1", 1)];
    FirstErrorAt(s0, 2);
    FirstErrorAt(s1, 2);
    assert FailedFrom(p, list, infos, 0) == 2;
    var m := SeedStages(st.initialStageMarkers, p, list, infos, 2);
    SeededEntry(st.initialStageMarkers, p, list, infos, 0, 2);
    SeededEntry(st.initialStageMarkers, p, list, infos, 1, 2);
    var out := InitMarkersStep(p, stages, sinfo, st);
    assert out.state == InitStageStep(st.(initialStageMarkers := m), infos[0]);
    assert out.state.markers == m["s0"];
    assert "s1" in out.state.initialStageMarkers && out.state.initialStageMarkers["s1"] == m["s1"];
    assert KnownIndex(list, "s0") == Some(0);
  }
}
