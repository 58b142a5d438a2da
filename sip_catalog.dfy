/**
 * The stage catalog (the parallel vectors `stages` and `sinfo`) and stage
 * promotion, PromoteStageCR::operate.
 */
module SipCatalog {
  import opened SipTypes
  import opened SeqUtil
  import opened SipState

  /** The first position of `sid` in `s`, if any. */
  function FirstIndexOf(s: seq<StageId>, sid: StageId): (r: Option<nat>)
    ensures r.Some? ==> r.value < |s| && s[r.value] == sid
    ensures r.Some? ==> forall j :: 0 <= j < r.value ==> s[j] != sid
    ensures r.None? ==> forall j :: 0 <= j < |s| ==> s[j] != sid
  {
    if |s| == 0 then None
    else if s[0] == sid then Some(0)
    else
      assert forall j :: 1 <= j < |s| ==> s[j] == s[1..][j - 1];
      match FirstIndexOf(s[1..], sid)
      case None => None
      case Some(k) => Some(k + 1)
  }

  /**
   * Where the promotion search finds the active stage: the first position
   * holding it among all but the last catalog entry.
   */
  function KnownIndex(stages: seq<StageId>, sid: StageId): (r: Option<nat>)
    ensures r.Some? ==> r.value + 1 < |stages| && stages[r.value] == sid
    ensures r.Some? ==> forall j :: 0 <= j < r.value ==> stages[j] != sid
    ensures r.None? ==> forall j :: 0 <= j < |stages| - 1 ==> stages[j] != sid
  {
    if |stages| == 0 then None else FirstIndexOf(stages[..|stages| - 1], sid)
  }

  /**
   * The search loop of PromoteStageCR::operate: it scans indices below
   * `|stages| - 1` and, on a match at `k`, leaves `i == k + 1`.
   */
  method SearchStage(stages: seq<StageId>, sid: StageId) returns (found: bool, i: int)
    ensures found ==> 0 < i < |stages| && stages[i - 1] == sid
    ensures found ==> forall j :: 0 <= j < i - 1 ==> stages[j] != sid
    ensures !found ==> forall j :: 0 <= j < |stages| - 1 ==> stages[j] != sid
    ensures found <==> KnownIndex(stages, sid).Some?
    ensures found ==> i == KnownIndex(stages, sid).value + 1
  {
    found := false;
    i := 0;
    while i < |stages| - 1
      invariant 0 <= i
      invariant i <= |stages| && (|stages| > 0 ==> i <= |stages| - 1)
      invariant forall j :: 0 <= j < i ==> stages[j] != sid
    {
      if stages[i] == sid {
        found := true;
        i := i + 1;
        break;
      }
      i := i + 1;
    }
  }

  /**
   * The vector reads and writes of the promotion are in range: on a match at
   * `k`, slot `k + 1` of `sinfo`; otherwise slot `|sinfo|` of `stages`, which is
   * written with the next stage id although only `sinfo` was grown.
   */
  predicate PromoteDefined(stages: seq<StageId>, sinfo: seq<StageInfo>, sid: StageId)
  {
    match KnownIndex(stages, sid)
    case Some(k) => k + 1 < |sinfo|
    case None => |sinfo| < |stages|
  }

  /** Status, the shard count written through `new_num_shards`, and the catalog and state afterwards. */
  datatype PromoteOutcome = PromoteOutcome(
    ret: int,
    newNumShards: Option<nat>,
    stages: seq<StageId>,
    sinfo: seq<StageInfo>,
    state: State)

  /**
   * PromoteStageCR::operate. When the search misses, `sinfo` grows by one
   * default slot and the next-stage request is queued for `stages[i]` with
   * `call` but no `yield`, so the status check right after it sees the fresh
   * coroutine's zero; the `yield` that follows runs that request and the next
   * check sees its status; the stage-info coroutine is created but never
   * called, so the new `sinfo` slot keeps its default value and becomes the
   * active stage.
   */
  function PromoteStep(p: Provider, wantShards: bool, stages: seq<StageId>, sinfo: seq<StageInfo>, st: State): (out: PromoteOutcome)
    requires PromoteDefined(stages, sinfo, st.stageInfo.sid)
    ensures |out.stages| == |stages| && |sinfo| <= |out.sinfo| <= |sinfo| + 1
    ensures out.ret <= 0
    ensures out.ret != 0 ==> out.state == st && out.newNumShards.None?
    ensures out.ret == 0 ==>
      && out.state.stageInfo in out.sinfo
      && out.state.done == [] && out.state.numComplete == 0
      && out.newNumShards == (if wantShards then Some(out.state.StageNumShards()) else None)
    ensures Consistent(st) ==> Consistent(out.state)
  {
    match KnownIndex(stages, st.stageInfo.sid)
    case Some(k) =>
      var st' := InitStageStep(st, sinfo[k + 1]);
      PromoteOutcome(0, if wantShards then Some(st'.StageNumShards()) else None, stages, sinfo, st')
    case None =>
      var i := |sinfo|;
      var sinfo' := Resize(sinfo, i + 1, DefaultStageInfo);
      match p.nextStage(st.stageInfo.sid)
      case Err(c) => PromoteOutcome(c, None, stages, sinfo', st)
      case Ok(next) =>
        var st' := InitStageStep(st, sinfo'[i]);
        PromoteOutcome(0, if wantShards then Some(st'.StageNumShards()) else None, stages[i := next], sinfo', st')
  }

  /**
   * Promotion into a known stage: the stage after the first match becomes
   * active through `init_stage`, consuming its seed if one is waiting, the
   * catalog is untouched, and the new shard count is reported when asked for.
   */
  lemma PromoteKnownStage(p: Provider, wantShards: bool, stages: seq<StageId>, sinfo: seq<StageInfo>, st: State, k: nat)
    requires PromoteDefined(stages, sinfo, st.stageInfo.sid)
    requires k + 1 < |stages| && stages[k] == st.stageInfo.sid
    requires forall j :: 0 <= j < k ==> stages[j] != st.stageInfo.sid
    ensures var out := PromoteStep(p, wantShards, stages, sinfo, st);
      && out.ret == 0 && out.stages == stages && out.sinfo == sinfo
      && out.state == InitStageStep(st, sinfo[k + 1])
      && out.state.stageInfo == sinfo[k + 1]
      && (sinfo[k + 1].sid in st.initialStageMarkers ==>
            out.state.markers == st.initialStageMarkers[sinfo[k + 1].sid])
      && out.newNumShards == (if wantShards then Some(sinfo[k + 1].numShards) else None)
  {
  }

  /**
   * Promotion when the search misses: exactly one default slot is appended
   * to `sinfo` and `stages` keeps its length; on a failed next-stage request
   * its status is returned and the state is kept; otherwise the next id is
   * stored at `stages[|sinfo|]` and the default slot becomes the active stage.
   */
  lemma PromoteDiscovery(p: Provider, wantShards: bool, stages: seq<StageId>, sinfo: seq<StageInfo>, st: State)
    requires PromoteDefined(stages, sinfo, st.stageInfo.sid)
    requires KnownIndex(stages, st.stageInfo.sid).None?
    ensures var out := PromoteStep(p, wantShards, stages, sinfo, st);
      && out.sinfo == sinfo + [DefaultStageInfo]
      && |out.stages| == |stages|
      && (p.nextStage(st.stageInfo.sid).Err? ==>
            out.ret == p.nextStage(st.stageInfo.sid).code && out.newNumShards == None
            && out.stages == stages && out.state == st)
      && (p.nextStage(st.stageInfo.sid).Ok? ==>
            && out.ret == 0
            && out.stages == stages[|sinfo| := p.nextStage(st.stageInfo.sid).value]
            && out.state == InitStageStep(st, DefaultStageInfo)
            && out.state.stageInfo == DefaultStageInfo
            && out.newNumShards == (if wantShards then Some(0) else None))
  {
    assert Resize(sinfo, |sinfo| + 1, DefaultStageInfo) == sinfo + [DefaultStageInfo];
  }

  /**
   * An active stage held only at the last catalog index is not found by the
   * search, so promotion takes the discovery branch, which on a catalog whose
   * two vectors have the same length writes past the end of `stages`.
   */
  lemma LastStageTakesDiscoveryBranch(stages: seq<StageId>, sinfo: seq<StageInfo>, sid: StageId)
    requires |stages| > 0 && stages[|stages| - 1] == sid
    requires forall j :: 0 <= j < |stages| - 1 ==> stages[j] != sid
    ensures KnownIndex(stages, sid).None?
    ensures |sinfo| == |stages| ==> !PromoteDefined(stages, sinfo, sid)
  {
  }

  /**
   * On a catalog whose two vectors have the same length, promotion is defined
   * exactly when the active stage is found before the last index.
   */
  lemma PromoteDefinedOnParallelCatalog(stages: seq<StageId>, sinfo: seq<StageInfo>, sid: StageId)
    requires |sinfo| == |stages|
    ensures PromoteDefined(stages, sinfo, sid) <==>
      exists k :: 0 <= k < |stages| - 1 && stages[k] == sid
  {
    var r := KnownIndex(stages, sid);
    if r.Some? {
      assert stages[r.value] == sid;
    }
  }

  /**
   * Marker initialisation leaves `sinfo` at least as long as `stages`, and
   * promotion keeps it so; on such a catalog a search miss always leads to the
   * out-of-range store, so the discovery branch is never defined.
   */
  lemma DiscoveryNeverDefined(stages: seq<StageId>, sinfo: seq<StageInfo>, sid: StageId)
    requires |stages| <= |sinfo|
    requires KnownIndex(stages, sid).None?
    ensures !PromoteDefined(stages, sinfo, sid)
  {
  }
}
