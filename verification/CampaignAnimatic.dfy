/**
  Campaign animatic (packages/contracts/src/campaign-animatic.ts).

  The compiler turns scenes into segments; compiled segments tile the timeline,
  and lookup and seeking are proved against that tiling.  Playback times are
  reals, segment bounds whole milliseconds.
*/
module CampaignAnimatic {
  import opened Common
  import opened StableSorting

  // ----- scenes and gaps -----

  datatype GapReason = NoSelection | StaleSelection | ShotPlanNotFound | SpecRevisionMismatch

  datatype ShotPlan = ShotPlan(specRevision: int, targetDurationMs: int, approved: bool)

  datatype Scene = Scene(
    sceneId: string,
    sceneOrder: int,
    specRevision: int,
    durationSeconds: Option<real>,
    selectedShotPlanId: Option<string>,
    selectedShotPlanRevision: Option<int>,
    approvedShotPlanId: Option<string>,
    selectedShotPlan: Option<ShotPlan>)

  /** The decision ladder shared with the readiness compiler; planRevision is that of the resolved plan. */
  function ClassifyGap(specRevision: int, selectedId: Option<string>, selectedRevision: Option<int>,
                       planRevision: Option<int>)
    : Option<GapReason>
  {
    if selectedId.None? || selectedId.value == "" then Some(NoSelection)
    else if selectedRevision.Some? && selectedRevision.value != specRevision then Some(StaleSelection)
    else if planRevision.None? then Some(ShotPlanNotFound)
    else if planRevision.value != specRevision then Some(SpecRevisionMismatch)
    else None
  }

  function PlanRevision(scene: Scene): Option<int> {
    if scene.selectedShotPlan.Some? then Some(scene.selectedShotPlan.value.specRevision) else None
  }

  function Gap(scene: Scene): Option<GapReason> {
    ClassifyGap(scene.specRevision, scene.selectedShotPlanId, scene.selectedShotPlanRevision, PlanRevision(scene))
  }

  /** Math.round: halves go up. */
  function Round(x: real): int {
    (x + 0.5).Floor
  }

  const DEFAULT_SECONDS := 4.0

  function GapDuration(scene: Scene): int {
    var seconds := if scene.durationSeconds.Some? then scene.durationSeconds.value else DEFAULT_SECONDS;
    Max(1000, Round(seconds * 1000.0))
  }

  function Duration(scene: Scene): int {
    if Gap(scene).Some? then GapDuration(scene) else scene.selectedShotPlan.value.targetDurationMs
  }

  /** A scene is playable exactly when a plan of its current revision is selected and found. */
  lemma GapFreeIff(scene: Scene)
    ensures Gap(scene).None? <==>
            && scene.selectedShotPlanId.Some? && scene.selectedShotPlanId.value != ""
            && (scene.selectedShotPlanRevision == None || scene.selectedShotPlanRevision == Some(scene.specRevision))
            && PlanRevision(scene) == Some(scene.specRevision)
  {
  }

  /** Why a scene is a gap: the first of the four reasons that applies. */
  lemma GapReasonIff(scene: Scene)
    ensures var unselected := scene.selectedShotPlanId == None || scene.selectedShotPlanId == Some("");
            var outdated := scene.selectedShotPlanRevision.Some?
                            && scene.selectedShotPlanRevision.value != scene.specRevision;
            && (Gap(scene) == Some(NoSelection) <==> unselected)
            && (Gap(scene) == Some(StaleSelection) <==> !unselected && outdated)
            && (Gap(scene) == Some(ShotPlanNotFound) <==> !unselected && !outdated && scene.selectedShotPlan == None)
            && (Gap(scene) == Some(SpecRevisionMismatch) <==>
                && !unselected && !outdated && scene.selectedShotPlan.Some?
                && scene.selectedShotPlan.value.specRevision != scene.specRevision)
  {
  }

  /** A gap lasts its scene's duration to the nearest millisecond, but a second at least; four without a duration. */
  lemma GapDurationIsNearest(scene: Scene)
    ensures scene.durationSeconds.None? ==> GapDuration(scene) == 4000
    ensures scene.durationSeconds.Some? ==>
              var ms := scene.durationSeconds.value * 1000.0;
              if ms < 1000.0 then GapDuration(scene) == 1000
              else ms - 0.5 < GapDuration(scene) as real <= ms + 0.5
  {
    if scene.durationSeconds.Some? {
      RoundIsNearest(scene.durationSeconds.value * 1000.0);
    } else {
      RoundIsNearest(4000.0);
    }
  }

  lemma RoundIsNearest(x: real)
    ensures x - 0.5 < Round(x) as real <= x + 0.5
  {
  }

  predicate ApprovedShot(scene: Scene) {
    Gap(scene).None?
    && (scene.approvedShotPlanId == scene.selectedShotPlanId || scene.selectedShotPlan.value.approved)
  }

  // ----- the read model -----

  datatype Content = GapContent(reason: GapReason) | ShotContent(plan: ShotPlan, approved: bool)

  datatype Segment = Segment(
    sceneId: string,
    sceneOrder: int,
    specRevision: int,
    content: Content,
    targetDurationMs: int,
    startMs: int,
    endMs: int)

  datatype ReadModel = ReadModel(
    totalDurationMs: int,
    includedShotPlanDurationMs: int,
    totalScenes: int,
    gapCount: int,
    approvedShotCount: int,
    draftShotCount: int,
    segments: seq<Segment>)

  function ByOrder(a: Scene, b: Scene): bool {
    a.sceneOrder <= b.sceneOrder
  }

  function ContentOf(scene: Scene): Content {
    if Gap(scene).Some? then GapContent(Gap(scene).value)
    else ShotContent(scene.selectedShotPlan.value, ApprovedShot(scene))
  }

  function IncludedDuration(scene: Scene): int {
    if Gap(scene).Some? then 0 else Duration(scene)
  }

  function OneIfGap(scene: Scene): int {
    if Gap(scene).Some? then 1 else 0
  }

  function OneIfApproved(scene: Scene): int {
    if ApprovedShot(scene) then 1 else 0
  }

  function OneIfDraft(scene: Scene): int {
    if Gap(scene).None? && !ApprovedShot(scene) then 1 else 0
  }

  /** The segment of the i-th scene starts where the scenes before it end. */
  function SegmentAt(scenes: seq<Scene>, i: nat): Segment
    requires i < |scenes|
  {
    Segment(scenes[i].sceneId, scenes[i].sceneOrder, scenes[i].specRevision, ContentOf(scenes[i]), Duration(scenes[i]),
            Sum(scenes[..i], Duration), Sum(scenes[..i + 1], Duration))
  }

  /** The model of the first n scenes. */
  function ModelOf(sorted: seq<Scene>, n: nat): ReadModel
    requires n <= |sorted|
  {
    ReadModel(Sum(sorted[..n], Duration), Sum(sorted[..n], IncludedDuration), n, Sum(sorted[..n], OneIfGap),
              Sum(sorted[..n], OneIfApproved), Sum(sorted[..n], OneIfDraft),
              seq(n, i requires 0 <= i < n => SegmentAt(sorted, i)))
  }

  function Compiled(scenes: seq<Scene>): ReadModel {
    var sorted := Sort(scenes, ByOrder);
    ModelOf(sorted, |sorted|)
  }

  // ----- compileCampaignAnimaticReadModel -----

  lemma ModelStep(sorted: seq<Scene>, n: nat)
    requires n < |sorted|
    ensures var m, scene := ModelOf(sorted, n), sorted[n];
            ModelOf(sorted, n + 1) == ReadModel(
              m.totalDurationMs + Duration(scene), m.includedShotPlanDurationMs + IncludedDuration(scene), n + 1,
              m.gapCount + OneIfGap(scene), m.approvedShotCount + OneIfApproved(scene),
              m.draftShotCount + OneIfDraft(scene),
              m.segments + [Segment(scene.sceneId, scene.sceneOrder, scene.specRevision, ContentOf(scene),
                                    Duration(scene),
                                    m.totalDurationMs, m.totalDurationMs + Duration(scene))])
  {
    SumPrefix(sorted, Duration, n);
    SumPrefix(sorted, IncludedDuration, n);
    SumPrefix(sorted, OneIfGap, n);
    SumPrefix(sorted, OneIfApproved, n);
    SumPrefix(sorted, OneIfDraft, n);
  }

  method CompileReadModel(scenes: seq<Scene>) returns (m: ReadModel)
    ensures m == Compiled(scenes)
  {
    var sorted := Sort(scenes, ByOrder);
    var runningOffsetMs, included, gapCount, approved, draft := 0, 0, 0, 0, 0;
    var segments: seq<Segment> := [];
    for i := 0 to |sorted|
      invariant ReadModel(runningOffsetMs, included, i, gapCount, approved, draft, segments) == ModelOf(sorted, i)
    {
      var scene, startMs := sorted[i], runningOffsetMs;
      ModelStep(sorted, i);
      var gap := Gap(scene);
      if gap.Some? {
        var target := GapDuration(scene);
        runningOffsetMs := startMs + target;
        gapCount := gapCount + 1;
        segments := segments + [Segment(scene.sceneId, scene.sceneOrder, scene.specRevision, GapContent(gap.value),
                                        target, startMs, runningOffsetMs)];
      } else {
        var plan := scene.selectedShotPlan.value;
        var isApproved := scene.approvedShotPlanId == scene.selectedShotPlanId || plan.approved;
        runningOffsetMs := startMs + plan.targetDurationMs;
        included := included + plan.targetDurationMs;
        if isApproved {
          approved := approved + 1;
        } else {
          draft := draft + 1;
        }
        segments := segments
            + [Segment(scene.sceneId, scene.sceneOrder, scene.specRevision, ShotContent(plan, isApproved),
                                        plan.targetDurationMs, startMs, runningOffsetMs)];
      }
    }
    m := ReadModel(runningOffsetMs, included, |segments|, gapCount, approved, draft, segments);
  }

  // ----- tiling -----

  /** Segments of positive length cover [0, total] without gap or overlap. */
  predicate Tiled(m: ReadModel) {
    var segs := m.segments;
    && (segs == [] ==> m.totalDurationMs == 0)
    && (segs != [] ==> segs[0].startMs == 0 && segs[|segs| - 1].endMs == m.totalDurationMs)
    && (forall i | 0 <= i < |segs| ::
          segs[i].targetDurationMs > 0 && segs[i].endMs == segs[i].startMs + segs[i].targetDurationMs)
    && (forall i | 0 < i < |segs| :: segs[i].startMs == segs[i - 1].endMs)
  }

  /** Plans last some time; gaps always do. */
  predicate PositiveDurations(scenes: seq<Scene>) {
    forall scene | scene in scenes :: Gap(scene).None? ==> scene.selectedShotPlan.value.targetDurationMs > 0
  }

  lemma DurationsArePositive(scenes: seq<Scene>)
    requires PositiveDurations(scenes)
    ensures forall i | 0 <= i < |Sort(scenes, ByOrder)| :: Duration(Sort(scenes, ByOrder)[i]) > 0
  {
    SameMembers(scenes, ByOrder);
    var sorted := Sort(scenes, ByOrder);
    forall i | 0 <= i < |sorted| ensures Duration(sorted[i]) > 0 {
      assert sorted[i] in scenes;
    }
  }

  lemma SpanOfSegment(sorted: seq<Scene>, i: nat)
    requires i < |sorted|
    ensures SegmentAt(sorted, i).endMs == SegmentAt(sorted, i).startMs + SegmentAt(sorted, i).targetDurationMs
  {
    SumPrefix(sorted, Duration, i);
  }

  lemma CompiledIsTiled(scenes: seq<Scene>)
    requires PositiveDurations(scenes)
    ensures Tiled(Compiled(scenes))
  {
    var sorted, m := Sort(scenes, ByOrder), Compiled(scenes);
    DurationsArePositive(scenes);
    forall i: nat | i < |sorted| ensures m.segments[i].endMs == m.segments[i].startMs + m.segments[i].targetDurationMs {
      SpanOfSegment(sorted, i);
    }
    assert sorted[..0] == [] && sorted[..|sorted|] == sorted;
  }

  /** Segments keep the scenes, one for one. */
  lemma SegmentsAreSortedScenes(scenes: seq<Scene>)
    ensures var sorted, m := Sort(scenes, ByOrder), Compiled(scenes);
            && |m.segments| == |sorted| && multiset(sorted) == multiset(scenes)
            && forall i | 0 <= i < |sorted| ::
                 && m.segments[i].sceneId == sorted[i].sceneId && m.segments[i].sceneOrder == sorted[i].sceneOrder
                 && m.segments[i].content == ContentOf(sorted[i])
  {
    SortIsPermutation(scenes, ByOrder);
  }

  /** What segment i carries over from the i-th scene in order. */
  lemma SegmentContents(scenes: seq<Scene>, i: nat)
    requires i < |Compiled(scenes).segments|
    ensures |Sort(scenes, ByOrder)| == |Compiled(scenes).segments|
    ensures var seg, scene := Compiled(scenes).segments[i], Sort(scenes, ByOrder)[i];
            && seg.specRevision == scene.specRevision
            && (Gap(scene).Some? ==>
                  seg.content == GapContent(Gap(scene).value) && seg.targetDurationMs == GapDuration(scene))
            && (Gap(scene).None? ==>
                  && scene.selectedShotPlan.Some?
                  && var plan := scene.selectedShotPlan.value;
                     && seg.targetDurationMs == plan.targetDurationMs
                     && seg.content.ShotContent? && seg.content.plan == plan
                     && (seg.content.approved <==>
                         scene.approvedShotPlanId == scene.selectedShotPlanId || plan.approved))
  {
  }

  /** Segments ascend by scene order. */
  lemma SegmentsAscend(scenes: seq<Scene>, i: nat, j: nat)
    requires i < j < |Compiled(scenes).segments|
    ensures Compiled(scenes).segments[i].sceneOrder <= Compiled(scenes).segments[j].sceneOrder
  {
    SortIsOrdered(scenes, ByOrder);
    assert ByOrder(Sort(scenes, ByOrder)[i], Sort(scenes, ByOrder)[j]);
  }

  /** Scenes of equal order keep the order they came in. */
  lemma SceneOrderIsStable(scenes: seq<Scene>, pivot: Scene)
    ensures Ties(Sort(scenes, ByOrder), ByOrder, pivot) == Ties(scenes, ByOrder, pivot)
  {
    SortIsStable(scenes, ByOrder, pivot);
  }

  function ShotLength(seg: Segment): int {
    if seg.content.ShotContent? then seg.targetDurationMs else 0
  }

  function GapLength(seg: Segment): int {
    if seg.content.GapContent? then seg.targetDurationMs else 0
  }

  function Length(seg: Segment): int {
    seg.targetDurationMs
  }

  /** The total is the included shot time plus the gap time. */
  lemma TotalIsIncludedPlusGaps(scenes: seq<Scene>)
    ensures var m := Compiled(scenes);
            && m.includedShotPlanDurationMs == Sum(m.segments, ShotLength)
            && m.totalDurationMs == m.includedShotPlanDurationMs + Sum(m.segments, GapLength)
  {
    var sorted, m := Sort(scenes, ByOrder), Compiled(scenes);
    assert sorted[..|sorted|] == sorted;
    SumPointwise(sorted, Duration, m.segments, Length);
    SumPointwise(sorted, IncludedDuration, m.segments, ShotLength);
    SumSplits(m.segments, Length, ShotLength, GapLength);
  }

  function SegmentIsGap(seg: Segment): int {
    if seg.content.GapContent? then 1 else 0
  }

  function SegmentIsShot(seg: Segment): int {
    if seg.content.ShotContent? then 1 else 0
  }

  function SegmentIsApproved(seg: Segment): int {
    if seg.content.ShotContent? && seg.content.approved then 1 else 0
  }

  function OneIfShot(scene: Scene): int {
    OneIfApproved(scene) + OneIfDraft(scene)
  }

  function One(scene: Scene): int {
    1
  }

  lemma {:induction false} SumOfOnes(scenes: seq<Scene>)
    ensures Sum(scenes, One) == |scenes|
  {
    if scenes != [] {
      SumOfOnes(scenes[..|scenes| - 1]);
    }
  }

  lemma ScenesPartition(sorted: seq<Scene>)
    ensures |sorted| == Sum(sorted, OneIfGap) + Sum(sorted, OneIfShot)
    ensures Sum(sorted, OneIfShot) == Sum(sorted, OneIfApproved) + Sum(sorted, OneIfDraft)
  {
    SumOfOnes(sorted);
    SumSplits(sorted, OneIfShot, OneIfApproved, OneIfDraft);
    SumSplits(sorted, One, OneIfGap, OneIfShot);
  }

  /** Each scene is counted once: as a gap, an approved shot or a draft. */
  lemma CountsPartitionScenes(scenes: seq<Scene>)
    ensures var m := Compiled(scenes);
            && m.totalScenes == |scenes| == m.gapCount + m.approvedShotCount + m.draftShotCount
            && m.gapCount == Sum(m.segments, SegmentIsGap)
            && m.approvedShotCount == Sum(m.segments, SegmentIsApproved)
            && m.approvedShotCount + m.draftShotCount == Sum(m.segments, SegmentIsShot)
  {
    var sorted, m := Sort(scenes, ByOrder), Compiled(scenes);
    SortIsPermutation(scenes, ByOrder);
    assert sorted[..|sorted|] == sorted;
    ScenesPartition(sorted);
    assert Sum(sorted, OneIfGap) == Sum(m.segments, SegmentIsGap) by {
      SumPointwise(sorted, OneIfGap, m.segments, SegmentIsGap);
    }
    assert Sum(sorted, OneIfApproved) == Sum(m.segments, SegmentIsApproved) by {
      SumPointwise(sorted, OneIfApproved, m.segments, SegmentIsApproved);
    }
    assert Sum(sorted, OneIfShot) == Sum(m.segments, SegmentIsShot) by {
      SumPointwise(sorted, OneIfShot, m.segments, SegmentIsShot);
    }
  }

  // ----- lookup -----

  function Clamp(m: ReadModel, t: real): real {
    if t < m.totalDurationMs as real then (if t < 0.0 then 0.0 else t)
    else if m.totalDurationMs < 0 then 0.0 else m.totalDurationMs as real
  }

  /** Half-open windows, the last one closed. */
  predicate InWindow(m: ReadModel, i: nat, c: real)
    requires i < |m.segments|
  {
    && m.segments[i].startMs as real <= c
    && (if i == |m.segments| - 1 then c <= m.segments[i].endMs as real else c < m.segments[i].endMs as real)
  }

  /** The first window at or after i that holds c, else the last. */
  function FirstWindow(m: ReadModel, c: real, i: nat): (k: nat)
    requires i <= |m.segments| && m.segments != []
    ensures k < |m.segments|
    decreases |m.segments| - i
  {
    if i == |m.segments| then |m.segments| - 1
    else if InWindow(m, i, c) then i
    else FirstWindow(m, c, i + 1)
  }

  function ActiveIndex(m: ReadModel, t: real): (k: nat)
    requires m.segments != []
    ensures k < |m.segments|
  {
    FirstWindow(m, Clamp(m, t), 0)
  }

  /** findActiveCampaignSegment */
  method FindActiveSegment(m: ReadModel, t: real) returns (r: Option<Segment>)
    ensures r == if m.segments == [] then None else Some(m.segments[ActiveIndex(m, t)])
  {
    if m.segments == [] {
      return None;
    }
    var c := Clamp(m, t);
    for i := 0 to |m.segments|
      invariant FirstWindow(m, c, 0) == FirstWindow(m, c, i)
    {
      if InWindow(m, i, c) {
        return Some(m.segments[i]);
      }
    }
    return Some(m.segments[|m.segments| - 1]);
  }

  lemma {:induction false} StartsIncrease(m: ReadModel, i: nat, j: nat)
    requires Tiled(m) && i < j < |m.segments|
    ensures m.segments[i].endMs <= m.segments[j].startMs
    ensures 0 <= m.segments[i].startMs < m.segments[j].startMs < m.totalDurationMs
    decreases j
  {
    if i < j - 1 {
      StartsIncrease(m, i, j - 1);
    }
    EndsWithin(m, j);
    StartsNonNegative(m, i);
  }

  lemma {:induction false} StartsNonNegative(m: ReadModel, i: nat)
    requires Tiled(m) && i < |m.segments|
    ensures 0 <= m.segments[i].startMs
  {
    if i > 0 {
      StartsNonNegative(m, i - 1);
    }
  }

  lemma {:induction false} EndsWithin(m: ReadModel, i: nat)
    requires Tiled(m) && i < |m.segments|
    ensures m.segments[i].endMs <= m.totalDurationMs
    decreases |m.segments| - i
  {
    if i < |m.segments| - 1 {
      EndsWithin(m, i + 1);
    }
  }

  /** At most one window holds a time. */
  lemma WindowsAreDisjoint(m: ReadModel, i: nat, j: nat, c: real)
    requires Tiled(m) && i < |m.segments| && j < |m.segments|
    requires InWindow(m, i, c) && InWindow(m, j, c)
    ensures i == j
  {
    if i < j {
      StartsIncrease(m, i, j);
    } else if j < i {
      StartsIncrease(m, j, i);
    }
  }

  /** Scanning from a segment that starts no later than c finds a window: the fallback is never taken. */
  lemma {:induction false} ScanFindsWindow(m: ReadModel, c: real, i: nat)
    requires Tiled(m) && i < |m.segments| && m.segments[i].startMs as real <= c <= m.totalDurationMs as real
    ensures InWindow(m, FirstWindow(m, c, i), c)
    decreases |m.segments| - i
  {
    if !InWindow(m, i, c) {
      ScanFindsWindow(m, c, i + 1);
    }
  }

  lemma ClampIsInside(m: ReadModel, t: real)
    requires Tiled(m)
    ensures 0.0 <= Clamp(m, t) <= m.totalDurationMs as real
    ensures 0.0 <= t <= m.totalDurationMs as real ==> Clamp(m, t) == t
  {
    if m.segments != [] {
      EndsWithin(m, 0);
    }
  }

  /**
    On a tiled model the active segment of any time is the one segment whose
    window holds the clamped time.
  */
  lemma ActiveIsTheWindow(m: ReadModel, t: real)
    requires Tiled(m) && m.segments != []
    ensures InWindow(m, ActiveIndex(m, t), Clamp(m, t))
    ensures forall i: nat | i < |m.segments| && InWindow(m, i, Clamp(m, t)) :: i == ActiveIndex(m, t)
  {
    ClampIsInside(m, t);
    ScanFindsWindow(m, Clamp(m, t), 0);
    forall i: nat | i < |m.segments| && InWindow(m, i, Clamp(m, t)) ensures i == ActiveIndex(m, t) {
      WindowsAreDisjoint(m, i, ActiveIndex(m, t), Clamp(m, t));
    }
  }

  /** computeShotLocalTimeMs */
  function ShotLocalTime(seg: Segment, t: real): real {
    var elapsed := t - seg.startMs as real;
    var capped := if elapsed < seg.targetDurationMs as real then elapsed else seg.targetDurationMs as real;
    if capped < 0.0 then 0.0 else capped
  }

  /** Segment start plus shot-local time is the clamped time. */
  lemma LocalTimeIsClampedTime(m: ReadModel, t: real)
    requires Tiled(m) && m.segments != []
    ensures var seg := m.segments[ActiveIndex(m, t)];
            seg.startMs as real + ShotLocalTime(seg, t) == Clamp(m, t)
  {
    var a := ActiveIndex(m, t);
    ActiveIsTheWindow(m, t);
    ClampIsInside(m, t);
    EndsWithin(m, a);
    StartsNonNegative(m, a);
    if t < 0.0 {
      ClampIsInside(m, 0.0);
    }
  }

  /** The time into a shot, brought inside the shot. */
  lemma ShotLocalTimeIsNearest(seg: Segment, t: real)
    requires seg.targetDurationMs >= 0
    ensures var elapsed, length := t - seg.startMs as real, seg.targetDurationMs as real;
            && 0.0 <= ShotLocalTime(seg, t) <= length
            && (0.0 <= elapsed <= length ==> ShotLocalTime(seg, t) == elapsed)
            && (elapsed < 0.0 ==> ShotLocalTime(seg, t) == 0.0)
            && (elapsed > length ==> ShotLocalTime(seg, t) == length)
  {
  }

  // ----- seeking -----

  /** findNextSegmentStartTime */
  function NextStart(m: ReadModel, t: real): int {
    if m.segments == [] then 0 else Min(m.totalDurationMs, m.segments[ActiveIndex(m, t)].endMs)
  }

  predicate SameKey(a: Segment, b: Segment) {
    a.sceneId == b.sceneId && a.sceneOrder == b.sceneOrder
  }

  /** findIndex by scene id and order, from i on. */
  function FirstWithKey(segs: seq<Segment>, seg: Segment, i: nat): (k: nat)
    requires i <= |segs| && exists j :: i <= j < |segs| && SameKey(segs[j], seg)
    ensures i <= k < |segs| && SameKey(segs[k], seg)
    ensures forall j | i <= j < k :: !SameKey(segs[j], seg)
    decreases |segs| - i
  {
    if SameKey(segs[i], seg) then i else FirstWithKey(segs, seg, i + 1)
  }

  function KeyIndex(m: ReadModel, i: nat): (k: nat)
    requires i < |m.segments|
    ensures k <= i && SameKey(m.segments[k], m.segments[i])
    ensures forall j | 0 <= j < k :: !SameKey(m.segments[j], m.segments[i])
  {
    FirstWithKey(m.segments, m.segments[i], 0)
  }

  /** findPreviousSegmentStartTime; the elapsed time is not clamped. */
  function PreviousStart(m: ReadModel, t: real, threshold: real): int {
    if m.segments == [] then 0
    else
      var a := ActiveIndex(m, t);
      if t - m.segments[a].startMs as real > threshold then m.segments[a].startMs
      else
        var k := KeyIndex(m, a);
        if k > 0 then m.segments[k - 1].startMs else 0
  }

  lemma ActiveAtStart(m: ReadModel, i: nat)
    requires Tiled(m) && i < |m.segments|
    ensures ActiveIndex(m, m.segments[i].startMs as real) == i
  {
    var t := m.segments[i].startMs as real;
    StartsNonNegative(m, i);
    EndsWithin(m, i);
    ClampIsInside(m, t);
    ActiveIsTheWindow(m, t);
    assert InWindow(m, i, t);
  }

  lemma ActiveAtTotal(m: ReadModel)
    requires Tiled(m) && m.segments != []
    ensures ActiveIndex(m, m.totalDurationMs as real) == |m.segments| - 1
  {
    var t, last: nat := m.totalDurationMs as real, |m.segments| - 1;
    EndsWithin(m, 0);
    ClampIsInside(m, t);
    ActiveIsTheWindow(m, t);
    assert InWindow(m, last, t);
  }

  /** Next is the end of the active segment. */
  lemma NextIsEndOfActive(m: ReadModel, t: real)
    requires Tiled(m) && m.segments != []
    ensures var a := ActiveIndex(m, t);
            NextStart(m, t) == if a + 1 < |m.segments| then m.segments[a + 1].startMs else m.totalDurationMs
  {
    EndsWithin(m, ActiveIndex(m, t));
  }

  function NextTimes(m: ReadModel, k: nat): int {
    if k == 0 then 0 else NextStart(m, NextTimes(m, k - 1) as real)
  }

  /** Seeking next from 0 visits every start in order, reaches the total after n steps and stays there. */
  lemma {:induction false} NextVisitsEveryStart(m: ReadModel, k: nat)
    requires Tiled(m)
    ensures NextTimes(m, k) == if k < |m.segments| then m.segments[k].startMs else m.totalDurationMs
  {
    if k > 0 && m.segments != [] {
      NextVisitsEveryStart(m, k - 1);
      NextIsEndOfActive(m, NextTimes(m, k - 1) as real);
      if k - 1 < |m.segments| {
        ActiveAtStart(m, k - 1);
      } else {
        ActiveAtTotal(m);
      }
    }
  }

  ghost predicate UniqueKeys(m: ReadModel) {
    forall i, j | 0 <= i < j < |m.segments| :: !SameKey(m.segments[i], m.segments[j])
  }

  predicate SameScene(a: Scene, b: Scene) {
    a.sceneId == b.sceneId && a.sceneOrder == b.sceneOrder
  }

  /** Scenes with pairwise distinct ids and orders compile to segments with unique keys. */
  lemma DistinctScenesHaveUniqueKeys(scenes: seq<Scene>)
    requires Apart(scenes, SameScene)
    ensures UniqueKeys(Compiled(scenes))
  {
    var sorted, m := Sort(scenes, ByOrder), Compiled(scenes);
    SortKeepsApart(scenes, ByOrder, SameScene);
    forall i, j | 0 <= i < j < |m.segments| ensures !SameKey(m.segments[i], m.segments[j]) {
      assert !SameScene(sorted[i], sorted[j]);
    }
  }

  /**
    From the start of a segment, previous is the start before it exactly when
    no earlier segment carries the same scene id and order (or there is only
    one segment before it).
  */
  lemma PreviousOfStartIff(m: ReadModel, i: nat, threshold: real)
    requires Tiled(m) && 0 < i < |m.segments| && threshold >= 0.0
    ensures PreviousStart(m, m.segments[i].startMs as real, threshold) == m.segments[i - 1].startMs
            <==> KeyIndex(m, i) == i || i == 1
  {
    ActiveAtStart(m, i);
    var k := KeyIndex(m, i);
    if 0 < k < i {
      StartsIncrease(m, k - 1, i - 1);
    } else if k == 0 && i > 1 {
      StartsIncrease(m, 0, i - 1);
    }
  }

  lemma UniqueKeyIndex(m: ReadModel, i: nat)
    requires UniqueKeys(m) && i < |m.segments|
    ensures KeyIndex(m, i) == i
  {
  }

  /**
    With unique keys, previous undoes next up to the start of the segment,
    except exactly from a last segment (not the only one) no longer than the
    threshold.
  */
  lemma PreviousOfNextIff(m: ReadModel, t: real, threshold: real)
    requires Tiled(m) && UniqueKeys(m) && m.segments != [] && threshold >= 0.0
    ensures var a, n := ActiveIndex(m, t), |m.segments|;
            PreviousStart(m, NextStart(m, t) as real, threshold) == m.segments[a].startMs
            <==> !(a == n - 1 && n > 1 && m.segments[a].targetDurationMs as real <= threshold)
  {
    var a, n := ActiveIndex(m, t), |m.segments|;
    NextIsEndOfActive(m, t);
    if a + 1 < n {
      UniqueKeyIndex(m, a + 1);
      PreviousOfStartIff(m, a + 1, threshold);
    } else {
      ActiveAtTotal(m);
      UniqueKeyIndex(m, a);
      if n > 1 {
        StartsIncrease(m, a - 1, a);
      }
    }
  }

  /**
    What previous answers at any time of the animatic, i being the segment
    whose window holds it: past the threshold the start of that segment, and
    otherwise, with unique keys, the start before it or 0.
  */
  lemma PreviousMeaning(m: ReadModel, t: real, threshold: real, i: nat)
    requires Tiled(m) && 0.0 <= t <= m.totalDurationMs as real && i < |m.segments| && InWindow(m, i, t)
    ensures t > m.segments[i].startMs as real + threshold ==> PreviousStart(m, t, threshold) == m.segments[i].startMs
    ensures t <= m.segments[i].startMs as real + threshold && UniqueKeys(m) ==>
              PreviousStart(m, t, threshold) == if i > 0 then m.segments[i - 1].startMs else 0
  {
    ClampIsInside(m, t);
    ActiveIsTheWindow(m, t);
    if UniqueKeys(m) {
      UniqueKeyIndex(m, i);
    }
  }

  /** Within the threshold and whatever the keys: the start before the first segment with the active one's key. */
  lemma PreviousByKey(m: ReadModel, t: real, threshold: real, i: nat, k: nat)
    requires Tiled(m) && 0.0 <= t <= m.totalDurationMs as real && i < |m.segments| && InWindow(m, i, t)
    requires t <= m.segments[i].startMs as real + threshold
    requires k <= i && SameKey(m.segments[k], m.segments[i])
    requires forall j | 0 <= j < k :: !SameKey(m.segments[j], m.segments[i])
    ensures PreviousStart(m, t, threshold) == if k > 0 then m.segments[k - 1].startMs else 0
  {
    ClampIsInside(m, t);
    ActiveIsTheWindow(m, t);
    var first := KeyIndex(m, i);
    assert first == k;
  }

  function PreviousTimes(m: ReadModel, t: real, threshold: real, k: nat): real {
    if k == 0 then t else PreviousStart(m, PreviousTimes(m, t, threshold, k - 1), threshold) as real
  }

  lemma PreviousStep(m: ReadModel, i: nat, threshold: real)
    requires Tiled(m) && UniqueKeys(m) && i < |m.segments| && threshold >= 0.0
    ensures PreviousStart(m, m.segments[i].startMs as real, threshold) == if i > 0 then m.segments[i - 1].startMs else 0
  {
    ActiveAtStart(m, i);
    UniqueKeyIndex(m, i);
  }

  /** With unique keys, k steps back from a start are k segments back, and never past 0. */
  lemma {:induction false} PreviousVisitsEveryStart(m: ReadModel, i: nat, threshold: real, k: nat)
    requires Tiled(m) && UniqueKeys(m) && i < |m.segments| && threshold >= 0.0
    ensures PreviousTimes(m, m.segments[i].startMs as real, threshold, k)
            == if k <= i then m.segments[i - k].startMs as real else 0.0
  {
    if k > 0 {
      PreviousVisitsEveryStart(m, i, threshold, k - 1);
      PreviousStep(m, if k <= i then i - k + 1 else 0, threshold);
    }
  }

  /** p is 0 or the start of one of the first bound segments. */
  ghost predicate IsEarlyStart(m: ReadModel, p: real, bound: nat) {
    p == 0.0 || exists j: nat :: j < bound && j < |m.segments| && p == m.segments[j].startMs as real
  }

  lemma PreviousIsEarlier(m: ReadModel, t: real, threshold: real)
    requires threshold >= 0.0 && m.segments != []
    ensures var a := ActiveIndex(m, t);
            && IsEarlyStart(m, PreviousStart(m, t, threshold) as real, a + 1)
            && (t == m.segments[a].startMs as real ==> IsEarlyStart(m, PreviousStart(m, t, threshold) as real, a))
  {
    var a := ActiveIndex(m, t);
    var k := KeyIndex(m, a);
    if k > 0 {
      assert k - 1 < a;
    }
  }

  lemma PreviousStepsDown(m: ReadModel, p: real, threshold: real, bound: nat)
    requires Tiled(m) && threshold >= 0.0 && IsEarlyStart(m, p, bound)
    ensures IsEarlyStart(m, PreviousStart(m, p, threshold) as real, if bound > 0 then bound - 1 else 0)
  {
    if m.segments != [] {
      var j: nat := 0;
      if p != 0.0 {
        j :| 0 <= j < bound && j < |m.segments| && p == m.segments[j].startMs as real;
      }
      ActiveAtStart(m, j);
      PreviousIsEarlier(m, p, threshold);
    }
  }

  /** Whatever the keys, seeking back from any time reaches 0 within n + 1 steps and stays there. */
  lemma {:induction false} PreviousReachesZero(m: ReadModel, t: real, threshold: real, k: nat)
    requires Tiled(m) && threshold >= 0.0 && k > 0
    ensures IsEarlyStart(m, PreviousTimes(m, t, threshold, k), if k <= |m.segments| then |m.segments| + 1 - k else 0)
    ensures k > |m.segments| ==> PreviousTimes(m, t, threshold, k) == 0.0
  {
    if k > 1 {
      PreviousReachesZero(m, t, threshold, k - 1);
      var bound := if k - 1 <= |m.segments| then |m.segments| + 2 - k else 0;
      PreviousStepsDown(m, PreviousTimes(m, t, threshold, k - 1), threshold, bound);
    } else if m.segments != [] {
      assert PreviousTimes(m, t, threshold, 0) == t;
      PreviousIsEarlier(m, t, threshold);
    }
  }
}
