/**
  Campaign pre-production readiness (packages/contracts/src/campaign-readiness.ts)
  and its agreement with the campaign animatic.
*/
module CampaignReadiness {
  import opened Common
  import opened StableSorting
  import A = CampaignAnimatic

  // ----- scenes and blockers -----

  datatype RoutingMode = ReferenceDirected | FrameAnchored

  datatype Scene = Scene(
    sceneId: string,
    sceneOrder: int,
    specRevision: int,
    routingMode: RoutingMode,
    selectedShotPlanId: Option<string>,
    selectedShotPlanRevision: Option<int>,
    approvedShotPlanId: Option<string>,
    approvedShotPlanRevision: Option<int>,
    selectedCandidateId: Option<string>,
    selectedCandidateRevision: Option<int>,
    selectedShotPlanSpecRevision: Option<int>,
    currentRevisionShotPlanCount: nat,
    lastPlannedSpecRevision: Option<int>,
    currentRevisionBindingCount: nat,
    hasArchivedBinding: bool,
    hasCrossClientBinding: bool,
    currentRevisionPrevisAvailable: bool)

  datatype Severity = Blocked | Attention

  datatype BlockerCode =
    | MissingReferenceBindings | ArchivedReferenceBinding | CrossClientReferenceBinding | ReferenceLimitExceeded
    | NoCurrentShotPlans | ShotPlanSelectionStale | NoShotPlanSelected | ShotPlanNotApproved
    | MissingFrameAnchor | NotInCampaignAnimatic

  datatype Blocker = Blocker(code: BlockerCode, severity: Severity)

  datatype Advisory = NoPrevisAvailable | SingleShotPlanVariant

  datatype Status = PlanningReady | NeedsAttention | BlockedForPlanning

  const MAX_REFERENCES: nat := 9

  function Gap(s: Scene): Option<A.GapReason> {
    A.ClassifyGap(s.specRevision, s.selectedShotPlanId, s.selectedShotPlanRevision,
                  if s.selectedShotPlanId.Some? then s.selectedShotPlanSpecRevision else None)
  }

  predicate IsStale(s: Scene) {
    s.specRevision > 1 && s.selectedShotPlanId.None?
    && s.lastPlannedSpecRevision.Some? && s.lastPlannedSpecRevision.value < s.specRevision
  }

  predicate SelectedIsCurrent(s: Scene) {
    s.selectedShotPlanId.Some? && s.selectedShotPlanRevision == Some(s.specRevision)
  }

  predicate AllCurrent(s: Scene) {
    s.currentRevisionBindingCount > 0 && !s.hasArchivedBinding && !s.hasCrossClientBinding
  }

  /** When each blocker is due. */
  predicate Due(s: Scene, code: BlockerCode) {
    match code
    case MissingReferenceBindings => s.currentRevisionBindingCount == 0
    case ArchivedReferenceBinding => s.hasArchivedBinding
    case CrossClientReferenceBinding => s.hasCrossClientBinding
    case ReferenceLimitExceeded => s.currentRevisionBindingCount > MAX_REFERENCES
    case NoCurrentShotPlans => s.currentRevisionShotPlanCount == 0
    case ShotPlanSelectionStale => IsStale(s)
    case NoShotPlanSelected => s.selectedShotPlanId.None? && !IsStale(s) && s.currentRevisionShotPlanCount > 0
    case ShotPlanNotApproved => SelectedIsCurrent(s) && s.approvedShotPlanId.None?
    case MissingFrameAnchor =>
      s.routingMode.FrameAnchored?
      && (s.selectedCandidateId.None? || s.selectedCandidateRevision != Some(s.specRevision))
    case NotInCampaignAnimatic => Gap(s).Some?
  }

  /** The order in which blockers are reported. */
  const CODES := [MissingReferenceBindings, ArchivedReferenceBinding, CrossClientReferenceBinding,
                  ReferenceLimitExceeded, NoCurrentShotPlans, ShotPlanSelectionStale, NoShotPlanSelected,
                  ShotPlanNotApproved,
                  MissingFrameAnchor, NotInCampaignAnimatic]

  /** The first five block planning, the others ask for attention. */
  function SeverityOf(code: BlockerCode): Severity {
    if code in CODES[..5] then Blocked else Attention
  }

  function DueBlockers(s: Scene, codes: seq<BlockerCode>): seq<Blocker> {
    if codes == [] then []
    else
      var code := codes[|codes| - 1];
      DueBlockers(s, codes[..|codes| - 1]) + if Due(s, code) then [Blocker(code, SeverityOf(code))] else []
  }

  // ----- scene projections -----

  datatype Projection = Projection(
    sceneId: string,
    sceneOrder: int,
    status: Status,
    allCurrent: bool,
    currentRevisionCount: nat,
    selectedIsCurrentRevision: bool,
    hasApprovedCurrentRevision: bool,
    previsAvailable: bool,
    included: bool,
    gapReason: Option<A.GapReason>,
    isStale: bool,
    blockers: seq<Blocker>,
    advisories: seq<Advisory>)

  /** statusFromBlockers */
  function StatusFromBlockers(blockers: seq<Blocker>): Status {
    if exists i :: 0 <= i < |blockers| && blockers[i].severity.Blocked? then BlockedForPlanning
    else if exists i :: 0 <= i < |blockers| && blockers[i].severity.Attention? then NeedsAttention
    else PlanningReady
  }

  function Advisories(s: Scene): seq<Advisory> {
    (if s.routingMode.ReferenceDirected? && !s.currentRevisionPrevisAvailable then [NoPrevisAvailable] else [])
    + (if s.currentRevisionShotPlanCount == 1 then [SingleShotPlanVariant] else [])
  }

  predicate HasApprovedCurrent(s: Scene) {
    s.approvedShotPlanId.Some? && s.approvedShotPlanRevision == Some(s.specRevision)
  }

  function Project(s: Scene): Projection {
    var blockers := DueBlockers(s, CODES);
    Projection(s.sceneId, s.sceneOrder, StatusFromBlockers(blockers), AllCurrent(s), s.currentRevisionShotPlanCount,
               SelectedIsCurrent(s), HasApprovedCurrent(s), s.currentRevisionPrevisAvailable,
               Gap(s).None?, Gap(s), IsStale(s), blockers, Advisories(s))
  }

  lemma DueAppend(s: Scene, codes: seq<BlockerCode>, n: nat)
    requires n < |codes|
    ensures DueBlockers(s, codes[..n + 1]) ==
            DueBlockers(s, codes[..n]) + if Due(s, codes[n]) then [Blocker(codes[n], SeverityOf(codes[n]))] else []
  {
    assert codes[..n + 1][..n] == codes[..n];
  }

  lemma DueOneMore(s: Scene, n: nat)
    requires n < |CODES|
    ensures DueBlockers(s, CODES[..n + 1]) ==
            DueBlockers(s, CODES[..n]) + if Due(s, CODES[n]) then [Blocker(CODES[n], SeverityOf(CODES[n]))] else []
  {
    DueAppend(s, CODES, n);
  }

  /** Reference blockers, pushed in turn. */
  method PushReferenceBlockers(s: Scene) returns (blockers: seq<Blocker>)
    ensures blockers == DueBlockers(s, CODES[..4])
  {
    blockers := [];
    if s.currentRevisionBindingCount == 0 {
      blockers := blockers + [Blocker(MissingReferenceBindings, Blocked)];
    }
    DueOneMore(s, 0);
    if s.hasArchivedBinding {
      blockers := blockers + [Blocker(ArchivedReferenceBinding, Blocked)];
    }
    DueOneMore(s, 1);
    if s.hasCrossClientBinding {
      blockers := blockers + [Blocker(CrossClientReferenceBinding, Blocked)];
    }
    DueOneMore(s, 2);
    if !(s.currentRevisionBindingCount <= MAX_REFERENCES) {
      blockers := blockers + [Blocker(ReferenceLimitExceeded, Blocked)];
    }
    DueOneMore(s, 3);
  }

  /** Planning and selection blockers, pushed behind them. */
  method PushSelectionBlockers(s: Scene, reference: seq<Blocker>) returns (blockers: seq<Blocker>)
    requires reference == DueBlockers(s, CODES[..4])
    ensures blockers == DueBlockers(s, CODES[..7])
  {
    blockers := reference;
    if s.currentRevisionShotPlanCount == 0 {
      blockers := blockers + [Blocker(NoCurrentShotPlans, Blocked)];
    }
    DueOneMore(s, 4);
    DueOneMore(s, 5);
    DueOneMore(s, 6);
    if s.selectedShotPlanId.None? {
      if IsStale(s) {
        blockers := blockers + [Blocker(ShotPlanSelectionStale, Attention)];
      } else if s.currentRevisionShotPlanCount > 0 {
        blockers := blockers + [Blocker(NoShotPlanSelected, Attention)];
      }
    }
  }

  /** Approval and anchor blockers, pushed behind those. */
  method PushPlanBlockers(s: Scene, selection: seq<Blocker>) returns (blockers: seq<Blocker>)
    requires selection == DueBlockers(s, CODES[..7])
    ensures blockers == DueBlockers(s, CODES[..9])
  {
    blockers := selection;
    if s.selectedShotPlanId.Some? && SelectedIsCurrent(s) && s.approvedShotPlanId.None? {
      blockers := blockers + [Blocker(ShotPlanNotApproved, Attention)];
    }
    DueOneMore(s, 7);
    if s.routingMode.FrameAnchored?
       && (s.selectedCandidateId.None? || s.selectedCandidateRevision != Some(s.specRevision)) {
      blockers := blockers + [Blocker(MissingFrameAnchor, Attention)];
    }
    DueOneMore(s, 8);
  }

  /** The animatic blocker, pushed last. */
  method PushAnimaticBlocker(s: Scene, plan: seq<Blocker>) returns (blockers: seq<Blocker>)
    requires plan == DueBlockers(s, CODES[..9])
    ensures blockers == DueBlockers(s, CODES)
  {
    blockers := plan;
    if Gap(s).Some? {
      blockers := blockers + [Blocker(NotInCampaignAnimatic, Attention)];
    }
    DueOneMore(s, 9);
    assert CODES[..10] == CODES;
  }

  method ProjectScene(s: Scene) returns (p: Projection)
    ensures p == Project(s)
  {
    var blockers := PushReferenceBlockers(s);
    blockers := PushSelectionBlockers(s, blockers);
    blockers := PushPlanBlockers(s, blockers);
    blockers := PushAnimaticBlocker(s, blockers);
    var advisories := [];
    if s.routingMode.ReferenceDirected? && !s.currentRevisionPrevisAvailable {
      advisories := advisories + [NoPrevisAvailable];
    }
    if s.currentRevisionShotPlanCount == 1 {
      advisories := advisories + [SingleShotPlanVariant];
    }
    p := Projection(s.sceneId, s.sceneOrder, StatusFromBlockers(blockers), AllCurrent(s),
                    s.currentRevisionShotPlanCount,
                    SelectedIsCurrent(s), HasApprovedCurrent(s), s.currentRevisionPrevisAvailable,
                    Gap(s).None?, Gap(s), IsStale(s), blockers, advisories);
  }

  // ----- what a scene's status means -----

  lemma {:induction false} BlockersAreDue(s: Scene, codes: seq<BlockerCode>, b: Blocker)
    ensures b in DueBlockers(s, codes) <==> b.code in codes && Due(s, b.code) && b.severity == SeverityOf(b.code)
  {
    if codes != [] {
      BlockersAreDue(s, codes[..|codes| - 1], b);
      assert codes == codes[..|codes| - 1] + [codes[|codes| - 1]];
    }
  }

  lemma EveryCodeListed(code: BlockerCode)
    ensures code in CODES
  {
    assert CODES[0] == MissingReferenceBindings && CODES[1] == ArchivedReferenceBinding
           && CODES[2] == CrossClientReferenceBinding && CODES[3] == ReferenceLimitExceeded
           && CODES[4] == NoCurrentShotPlans
           && CODES[5] == ShotPlanSelectionStale && CODES[6] == NoShotPlanSelected && CODES[7] == ShotPlanNotApproved
           && CODES[8] == MissingFrameAnchor && CODES[9] == NotInCampaignAnimatic;
  }

  ghost predicate SomeDue(s: Scene, severity: Severity) {
    exists code: BlockerCode :: Due(s, code) && SeverityOf(code) == severity
  }

  predicate Has(blockers: seq<Blocker>, severity: Severity) {
    exists i :: 0 <= i < |blockers| && blockers[i].severity == severity
  }

  lemma StatusByBlockers(blockers: seq<Blocker>)
    ensures StatusFromBlockers(blockers).BlockedForPlanning? <==> Has(blockers, Blocked)
    ensures StatusFromBlockers(blockers).PlanningReady? <==> !Has(blockers, Blocked) && !Has(blockers, Attention)
  {
  }

  lemma DueShows(s: Scene, severity: Severity)
    ensures SomeDue(s, severity) <==> Has(DueBlockers(s, CODES), severity)
  {
    var blockers := DueBlockers(s, CODES);
    if SomeDue(s, severity) {
      var code: BlockerCode :| Due(s, code) && SeverityOf(code) == severity;
      EveryCodeListed(code);
      BlockersAreDue(s, CODES, Blocker(code, severity));
      assert Blocker(code, severity) in blockers;
    }
    if Has(blockers, severity) {
      var i :| 0 <= i < |blockers| && blockers[i].severity == severity;
      BlockersAreDue(s, CODES, blockers[i]);
    }
  }

  lemma NothingDue(s: Scene)
    ensures !SomeDue(s, Blocked) && !SomeDue(s, Attention) <==> forall code: BlockerCode :: !Due(s, code)
  {
    if code: BlockerCode :| Due(s, code) {
      assert SomeDue(s, SeverityOf(code));
      assert SeverityOf(code) == Blocked || SeverityOf(code) == Attention;
    }
  }

  /** A scene is blocked exactly when a blocking code is due, and ready exactly when nothing is due. */
  lemma StatusMeaning(s: Scene)
    ensures Project(s).status.BlockedForPlanning? <==> SomeDue(s, Blocked)
    ensures Project(s).status.PlanningReady? <==> !SomeDue(s, Blocked) && !SomeDue(s, Attention)
    ensures Project(s).status.PlanningReady? <==> forall code: BlockerCode :: !Due(s, code)
  {
    DueShows(s, Blocked);
    DueShows(s, Attention);
    StatusByBlockers(DueBlockers(s, CODES));
    NothingDue(s);
  }

  /** The conditions of a ready scene, spelled out. */
  predicate SceneReady(s: Scene) {
    && 1 <= s.currentRevisionBindingCount <= MAX_REFERENCES && AllCurrent(s)
    && s.currentRevisionShotPlanCount > 0
    && Gap(s).None?
    && (s.selectedShotPlanRevision.Some? ==> s.approvedShotPlanId.Some?)
    && (s.routingMode.FrameAnchored? ==>
          s.selectedCandidateId.Some? && s.selectedCandidateRevision == Some(s.specRevision))
  }

  lemma ReadyIff(s: Scene)
    ensures Project(s).status.PlanningReady? <==> SceneReady(s)
  {
    StatusMeaning(s);
    if SceneReady(s) {
      forall code: BlockerCode ensures !Due(s, code) {
        match code case _ => {}
      }
    } else {
      assert Due(s, MissingReferenceBindings) || Due(s, ArchivedReferenceBinding) || Due(s, CrossClientReferenceBinding)
             || Due(s, ReferenceLimitExceeded) || Due(s, NoCurrentShotPlans) || Due(s, NotInCampaignAnimatic)
             || Due(s, ShotPlanNotApproved) || Due(s, MissingFrameAnchor);
    }
  }

  // ----- what a projection reports, in the scene's own fields -----

  lemma BlockerReportedIff(s: Scene, b: Blocker)
    ensures b in Project(s).blockers <==> Due(s, b.code) && b.severity == SeverityOf(b.code)
  {
    BlockersAreDue(s, CODES, b);
    EveryCodeListed(b.code);
  }

  lemma SeveritiesSplit(code: BlockerCode)
    ensures SeverityOf(code).Blocked? <==>
            code in {MissingReferenceBindings, ArchivedReferenceBinding, CrossClientReferenceBinding,
                     ReferenceLimitExceeded, NoCurrentShotPlans}
  {
    EveryCodeListed(code);
    assert CODES[..5] == [MissingReferenceBindings, ArchivedReferenceBinding, CrossClientReferenceBinding,
                          ReferenceLimitExceeded, NoCurrentShotPlans];
  }

  /** A scene is blocked exactly by its references or by the lack of a plan for its revision. */
  lemma BlockedIff(s: Scene)
    ensures Project(s).status.BlockedForPlanning? <==>
            || s.currentRevisionBindingCount == 0 || s.currentRevisionBindingCount > 9
            || s.hasArchivedBinding || s.hasCrossClientBinding
            || s.currentRevisionShotPlanCount == 0
  {
    StatusMeaning(s);
    forall code: BlockerCode
      ensures SeverityOf(code).Blocked? <==>
              code in {MissingReferenceBindings, ArchivedReferenceBinding, CrossClientReferenceBinding,
                       ReferenceLimitExceeded, NoCurrentShotPlans}
    {
      SeveritiesSplit(code);
    }
    assert Due(s, MissingReferenceBindings) <==> s.currentRevisionBindingCount == 0;
    assert Due(s, ArchivedReferenceBinding) <==> s.hasArchivedBinding;
    assert Due(s, CrossClientReferenceBinding) <==> s.hasCrossClientBinding;
    assert Due(s, ReferenceLimitExceeded) <==> s.currentRevisionBindingCount > 9;
    assert Due(s, NoCurrentShotPlans) <==> s.currentRevisionShotPlanCount == 0;
  }

  /** The blocking reports. */
  lemma BlockingReports(s: Scene)
    ensures var bs := Project(s).blockers;
            && (Blocker(MissingReferenceBindings, Blocked) in bs <==> s.currentRevisionBindingCount == 0)
            && (Blocker(ArchivedReferenceBinding, Blocked) in bs <==> s.hasArchivedBinding)
            && (Blocker(CrossClientReferenceBinding, Blocked) in bs <==> s.hasCrossClientBinding)
            && (Blocker(ReferenceLimitExceeded, Blocked) in bs <==> s.currentRevisionBindingCount > 9)
            && (Blocker(NoCurrentShotPlans, Blocked) in bs <==> s.currentRevisionShotPlanCount == 0)
  {
    ReportedAs(s, MissingReferenceBindings);
    ReportedAs(s, ArchivedReferenceBinding);
    ReportedAs(s, CrossClientReferenceBinding);
    ReportedAs(s, ReferenceLimitExceeded);
    ReportedAs(s, NoCurrentShotPlans);
  }

  lemma ReportedAs(s: Scene, code: BlockerCode)
    ensures Blocker(code, SeverityOf(code)) in Project(s).blockers <==> Due(s, code)
    ensures SeverityOf(code).Blocked? <==>
            code in {MissingReferenceBindings, ArchivedReferenceBinding, CrossClientReferenceBinding,
                     ReferenceLimitExceeded, NoCurrentShotPlans}
  {
    BlockerReportedIff(s, Blocker(code, SeverityOf(code)));
    SeveritiesSplit(code);
  }

  /** The planned revision is behind the scene's. */
  predicate PlannedEarlier(s: Scene) {
    s.specRevision > 1 && s.lastPlannedSpecRevision.Some? && s.lastPlannedSpecRevision.value < s.specRevision
  }

  /** The reports that ask for attention. */
  lemma AttentionReports(s: Scene)
    ensures var bs := Project(s).blockers;
            && (Blocker(ShotPlanSelectionStale, Attention) in bs <==> s.selectedShotPlanId == None && PlannedEarlier(s))
            && (Blocker(NoShotPlanSelected, Attention) in bs <==>
                s.selectedShotPlanId == None && !PlannedEarlier(s) && s.currentRevisionShotPlanCount > 0)
            && (Blocker(ShotPlanNotApproved, Attention) in bs <==>
                && s.selectedShotPlanId != None && s.selectedShotPlanRevision == Some(s.specRevision)
                && s.approvedShotPlanId == None)
            && (Blocker(MissingFrameAnchor, Attention) in bs <==>
                && s.routingMode == FrameAnchored
                && (s.selectedCandidateId == None || s.selectedCandidateRevision != Some(s.specRevision)))
            && (Blocker(NotInCampaignAnimatic, Attention) in bs <==> !Playable(s))
  {
    ReportedAs(s, ShotPlanSelectionStale);
    ReportedAs(s, NoShotPlanSelected);
    ReportedAs(s, ShotPlanNotApproved);
    ReportedAs(s, MissingFrameAnchor);
    ReportedAs(s, NotInCampaignAnimatic);
  }

  /** A plan of the scene's own revision is selected, and nothing says otherwise. */
  predicate Playable(s: Scene) {
    && s.selectedShotPlanId.Some? && |s.selectedShotPlanId.value| > 0
    && (s.selectedShotPlanRevision.Some? ==> s.selectedShotPlanRevision.value == s.specRevision)
    && s.selectedShotPlanSpecRevision == Some(s.specRevision)
  }

  function Rank(code: BlockerCode): nat {
    match code
    case MissingReferenceBindings => 0
    case ArchivedReferenceBinding => 1
    case CrossClientReferenceBinding => 2
    case ReferenceLimitExceeded => 3
    case NoCurrentShotPlans => 4
    case ShotPlanSelectionStale => 5
    case NoShotPlanSelected => 6
    case ShotPlanNotApproved => 7
    case MissingFrameAnchor => 8
    case NotInCampaignAnimatic => 9
  }

  lemma {:induction false} DueBlockersAscend(s: Scene, n: nat)
    requires n <= |CODES|
    ensures var bs := DueBlockers(s, CODES[..n]);
            && (forall i | 0 <= i < |bs| :: Rank(bs[i].code) < n && bs[i].severity == SeverityOf(bs[i].code))
            && (forall i, j | 0 <= i < j < |bs| :: Rank(bs[i].code) < Rank(bs[j].code))
  {
    if n > 0 {
      DueBlockersAscend(s, n - 1);
      DueOneMore(s, n - 1);
      RankOfCode(n - 1);
    }
  }

  lemma RankOfCode(n: nat)
    requires n < |CODES|
    ensures Rank(CODES[n]) == n
  {
    EveryCodeListed(CODES[n]);
  }

  /** Nothing is reported twice, and reports come in one fixed order. */
  lemma ReportsAscend(s: Scene, i: nat, j: nat)
    requires i < j < |Project(s).blockers|
    ensures Rank(Project(s).blockers[i].code) < Rank(Project(s).blockers[j].code)
  {
    DueBlockersAscend(s, 10);
    assert CODES[..10] == CODES;
    assert Project(s).blockers == DueBlockers(s, CODES[..10]);
  }

  /** The projection's other entries. */
  lemma ProjectionMeaning(s: Scene)
    ensures var p := Project(s);
            && p.sceneId == s.sceneId && p.sceneOrder == s.sceneOrder
            && (p.allCurrent <==>
                s.currentRevisionBindingCount > 0 && !s.hasArchivedBinding && !s.hasCrossClientBinding)
            && p.currentRevisionCount == s.currentRevisionShotPlanCount
            && (p.selectedIsCurrentRevision <==>
                s.selectedShotPlanId != None && s.selectedShotPlanRevision == Some(s.specRevision))
            && (p.hasApprovedCurrentRevision <==>
                s.approvedShotPlanId != None && s.approvedShotPlanRevision == Some(s.specRevision))
            && (p.previsAvailable <==> s.currentRevisionPrevisAvailable)
            && (p.isStale <==> s.selectedShotPlanId == None && PlannedEarlier(s))
            && (p.included <==> p.gapReason == None)
            && (p.included <==> Playable(s))
            && (NoPrevisAvailable in p.advisories <==>
                s.routingMode == ReferenceDirected && !s.currentRevisionPrevisAvailable)
            && (SingleShotPlanVariant in p.advisories <==> s.currentRevisionShotPlanCount == 1)
            && |p.advisories| <= 2 && (|p.advisories| == 2 ==> p.advisories[0] == NoPrevisAvailable)
  {
  }

  // ----- aggregates -----

  datatype Aggregates = Aggregates(
    totalScenes: nat,
    planningReadyCount: nat,
    needsAttentionCount: nat,
    blockedForPlanningCount: nat,
    currentReferenceSceneCount: nat,
    scenesWithCurrentShotPlansCount: nat,
    scenesWithSelectionCount: nat,
    approvedSceneCount: nat,
    scenesWithPrevisCount: nat,
    scenesInCampaignAnimaticCount: nat,
    staleSceneCount: nat)

  datatype Readiness = Readiness(readinessStatus: Status, aggregates: Aggregates, scenes: seq<Projection>)

  predicate IsReady(p: Projection) { p.status.PlanningReady? }
  predicate IsAttention(p: Projection) { p.status.NeedsAttention? }
  predicate IsBlocked(p: Projection) { p.status.BlockedForPlanning? }
  predicate ReferencesCurrent(p: Projection) { p.allCurrent }
  predicate HasCurrentPlans(p: Projection) { p.currentRevisionCount > 0 }
  predicate HasSelection(p: Projection) { p.selectedIsCurrentRevision }
  predicate IsApproved(p: Projection) { p.hasApprovedCurrentRevision }
  predicate HasPrevis(p: Projection) { p.previsAvailable }
  predicate IsIncluded(p: Projection) { p.included }
  predicate IsStaleScene(p: Projection) { p.isStale }

  function Aggregate(ps: seq<Projection>): Aggregates {
    Aggregates(|ps|, Count(ps, IsReady), Count(ps, IsAttention), Count(ps, IsBlocked), Count(ps, ReferencesCurrent),
               Count(ps, HasCurrentPlans), Count(ps, HasSelection), Count(ps, IsApproved), Count(ps, HasPrevis),
               Count(ps, IsIncluded), Count(ps, IsStaleScene))
  }

  function BandOf(status: Status): int {
    match status
    case BlockedForPlanning => 2
    case NeedsAttention => 1
    case PlanningReady => 0
  }

  /** The reduce over scenes, starting from ready. */
  function Worst(ps: seq<Projection>): Status {
    if ps == [] then PlanningReady
    else
      var worst, last := Worst(ps[..|ps| - 1]), ps[|ps| - 1].status;
      if BandOf(last) > BandOf(worst) then last else worst
  }

  function ByOrder(a: Scene, b: Scene): bool {
    a.sceneOrder <= b.sceneOrder
  }

  /** compileCampaignPreProductionReadiness */
  function CompileReadiness(scenes: seq<Scene>): Readiness {
    var sorted := Sort(scenes, ByOrder);
    var ps := seq(|sorted|, i requires 0 <= i < |sorted| => Project(sorted[i]));
    Readiness(if ps == [] then BlockedForPlanning else Worst(ps), Aggregate(ps), ps)
  }

  /** The reduce finds the worst status there is. */
  lemma {:induction false} WorstIsWorst(ps: seq<Projection>)
    ensures forall i | 0 <= i < |ps| :: BandOf(ps[i].status) <= BandOf(Worst(ps))
    ensures Worst(ps).PlanningReady? || exists i :: 0 <= i < |ps| && ps[i].status == Worst(ps)
  {
    if ps != [] {
      var front, n := ps[..|ps| - 1], |ps| - 1;
      WorstIsWorst(front);
      forall i | 0 <= i < |ps| ensures BandOf(ps[i].status) <= BandOf(Worst(ps)) {
        if i < n {
          assert front[i] == ps[i];
        }
      }
      if Worst(ps) == ps[n].status {
      } else if i :| 0 <= i < |front| && front[i].status == Worst(front) {
        assert ps[i].status == Worst(ps);
      }
    }
  }

  /**
    The campaign is ready exactly when it has scenes and all are ready;
    blocked exactly when it has none or one is blocked.
  */
  lemma ReadinessMeaning(scenes: seq<Scene>)
    ensures var r := CompileReadiness(scenes);
            && (r.readinessStatus.PlanningReady? <==>
                r.scenes != [] && forall i | 0 <= i < |r.scenes| :: IsReady(r.scenes[i]))
            && (r.readinessStatus.BlockedForPlanning? <==>
                r.scenes == [] || exists i :: 0 <= i < |r.scenes| && IsBlocked(r.scenes[i]))
  {
    var ps := CompileReadiness(scenes).scenes;
    WorstIsWorst(ps);
    if i :| 0 <= i < |ps| && ps[i].status == Worst(ps) {
      assert IsReady(ps[i]) <==> Worst(ps).PlanningReady?;
      assert IsBlocked(ps[i]) <==> Worst(ps).BlockedForPlanning?;
    }
  }

  /** The same in terms of the scenes given. */
  lemma CampaignReadyIff(scenes: seq<Scene>)
    ensures CompileReadiness(scenes).readinessStatus.PlanningReady?
            <==> scenes != [] && forall s | s in scenes :: SceneReady(s)
  {
    var sorted, r := Sort(scenes, ByOrder), CompileReadiness(scenes);
    ReadinessMeaning(scenes);
    SameMembers(scenes, ByOrder);
    SortIsPermutation(scenes, ByOrder);
    forall i | 0 <= i < |sorted| ensures IsReady(r.scenes[i]) <==> SceneReady(sorted[i]) {
      ReadyIff(sorted[i]);
    }
    if forall i | 0 <= i < |sorted| :: SceneReady(sorted[i]) {
      forall s | s in scenes ensures SceneReady(s) {
        assert s in sorted;
      }
    }
    assert forall i | 0 <= i < |sorted| :: sorted[i] in scenes;
  }

  lemma CountOverScenes(scenes: seq<Scene>, p: Projection -> bool, q: Scene -> bool)
    requires forall s: Scene :: p(Project(s)) == q(s)
    ensures Count(CompileReadiness(scenes).scenes, p) == Count(scenes, q)
  {
    var sorted, one := Sort(scenes, ByOrder), (s: Scene) => if q(s) then 1 else 0;
    SortIsPermutation(scenes, ByOrder);
    CountIsSum(CompileReadiness(scenes).scenes, p, sorted, one);
    SumPermutation(sorted, scenes, one);
    CountIsSum(scenes, q, scenes, one);
  }

  predicate HasPlans(s: Scene) { s.currentRevisionShotPlanCount > 0 }
  predicate PrevisAvailable(s: Scene) { s.currentRevisionPrevisAvailable }
  predicate GapFree(s: Scene) { Gap(s).None? }

  /** Every aggregate counts the scenes given that meet its own condition, in whatever order they came. */
  lemma AggregatesCountScenes(scenes: seq<Scene>)
    ensures var a := CompileReadiness(scenes).aggregates;
            && a.planningReadyCount == Count(scenes, SceneReady)
            && a.currentReferenceSceneCount == Count(scenes, AllCurrent)
            && a.scenesWithCurrentShotPlansCount == Count(scenes, HasPlans)
            && a.scenesWithSelectionCount == Count(scenes, SelectedIsCurrent)
            && a.approvedSceneCount == Count(scenes, HasApprovedCurrent)
            && a.scenesWithPrevisCount == Count(scenes, PrevisAvailable)
            && a.scenesInCampaignAnimaticCount == Count(scenes, GapFree)
            && a.staleSceneCount == Count(scenes, IsStale)
  {
    forall s: Scene ensures IsReady(Project(s)) == SceneReady(s) {
      ReadyIff(s);
    }
    CountOverScenes(scenes, IsReady, SceneReady);
    CountOverScenes(scenes, ReferencesCurrent, AllCurrent);
    CountOverScenes(scenes, HasCurrentPlans, HasPlans);
    CountOverScenes(scenes, HasSelection, SelectedIsCurrent);
    CountOverScenes(scenes, IsApproved, HasApprovedCurrent);
    CountOverScenes(scenes, HasPrevis, PrevisAvailable);
    CountOverScenes(scenes, IsIncluded, GapFree);
    CountOverScenes(scenes, IsStaleScene, IsStale);
  }

  lemma {:induction false} StatusesPartition(ps: seq<Projection>)
    ensures Count(ps, IsReady) + Count(ps, IsAttention) + Count(ps, IsBlocked) == |ps|
  {
    if ps != [] {
      StatusesPartition(ps[..|ps| - 1]);
    }
  }

  /** Every scene falls under exactly one of the three status counts. */
  lemma StatusCountsPartitionScenes(scenes: seq<Scene>)
    ensures var a := CompileReadiness(scenes).aggregates;
            a.totalScenes == |scenes| == a.planningReadyCount + a.needsAttentionCount + a.blockedForPlanningCount
  {
    StatusesPartition(CompileReadiness(scenes).scenes);
    SortIsPermutation(scenes, ByOrder);
  }

  /** In a ready campaign every scene is ready, bound, planned and in the animatic, and none is stale. */
  lemma ReadyCampaignCounts(scenes: seq<Scene>)
    requires CompileReadiness(scenes).readinessStatus.PlanningReady?
    ensures var a := CompileReadiness(scenes).aggregates;
            && a.totalScenes > 0
            && a.planningReadyCount == a.currentReferenceSceneCount == a.scenesWithCurrentShotPlansCount
               == a.scenesInCampaignAnimaticCount == a.totalScenes
            && a.staleSceneCount == 0
  {
    var sorted, ps := Sort(scenes, ByOrder), CompileReadiness(scenes).scenes;
    ReadinessMeaning(scenes);
    forall i | 0 <= i < |ps|
      ensures IsReady(ps[i]) && ReferencesCurrent(ps[i]) && HasCurrentPlans(ps[i]) && IsIncluded(ps[i])
          && !IsStaleScene(ps[i])
    {
      ReadyIff(sorted[i]);
    }
    CountExtremes(ps, IsReady);
    CountExtremes(ps, ReferencesCurrent);
    CountExtremes(ps, HasCurrentPlans);
    CountExtremes(ps, IsIncluded);
    CountExtremes(ps, IsStaleScene);
  }

  /** The approval blocker is raised only for a selection recorded with a revision, and looks at no revision itself. */
  predicate ApprovalUnasked(s: Scene) {
    s.selectedShotPlanRevision.None? && s.approvedShotPlanId.None?
  }

  predicate ApprovalOutdated(s: Scene) {
    s.approvedShotPlanId.Some? && s.approvedShotPlanRevision != Some(s.specRevision)
  }

  /**
    Ready does not mean approved.  A ready scene lacks an approval of its
    current revision exactly when its selection has no revision and it has no
    approval, or when its approval is of another revision.
  */
  lemma ReadySceneLacksApprovalIff(s: Scene)
    requires Project(s).status.PlanningReady?
    ensures !Project(s).hasApprovedCurrentRevision <==> ApprovalUnasked(s) || ApprovalOutdated(s)
  {
    ReadyIff(s);
  }

  /** A ready campaign is counted fully approved exactly when no scene slips through in either way. */
  lemma ReadyCampaignApprovedIff(scenes: seq<Scene>)
    requires CompileReadiness(scenes).readinessStatus.PlanningReady?
    ensures var a := CompileReadiness(scenes).aggregates;
            a.approvedSceneCount == a.totalScenes
            <==> forall s | s in scenes :: !ApprovalUnasked(s) && !ApprovalOutdated(s)
  {
    var sorted, ps := Sort(scenes, ByOrder), CompileReadiness(scenes).scenes;
    SameMembers(scenes, ByOrder);
    ReadinessMeaning(scenes);
    CountExtremes(ps, IsApproved);
    forall i | 0 <= i < |sorted|
      ensures sorted[i] in scenes
      ensures IsApproved(ps[i]) <==> !ApprovalUnasked(sorted[i]) && !ApprovalOutdated(sorted[i])
    {
      assert IsReady(ps[i]);
      ReadySceneLacksApprovalIff(sorted[i]);
    }
    if forall i | 0 <= i < |ps| :: IsApproved(ps[i]) {
      forall s | s in scenes ensures !ApprovalUnasked(s) && !ApprovalOutdated(s) {
        var i :| 0 <= i < |sorted| && sorted[i] == s;
        assert IsApproved(ps[i]);
      }
    }
  }

  /** A selection without a revision is never asked for its approval. */
  const UNASKED: Scene :=
    Scene("scene", 1, 1, ReferenceDirected, Some("plan"), None, None, None, None, None, Some(1), 1, Some(1), 1,
          false, false, true)

  /** An approval given to revision 1 passes for revision 2. */
  const OUTDATED: Scene :=
    Scene("scene", 1, 2, ReferenceDirected, Some("plan"), Some(2), Some("old"), Some(1), None, None, Some(2), 1,
          Some(2), 1,
          false, false, true)

  /** Both ways occur: ready campaigns without a single approved scene. */
  lemma ReadyWithoutApproval(s: Scene)
    requires s == UNASKED || s == OUTDATED
    ensures SceneReady(s) && (s == UNASKED ==> ApprovalUnasked(s)) && (s == OUTDATED ==> ApprovalOutdated(s))
    ensures CompileReadiness([s]).readinessStatus.PlanningReady?
        && CompileReadiness([s]).aggregates.approvedSceneCount == 0
  {
    CampaignReadyIff([s]);
    SortIsPermutation([s], ByOrder);
    SameMembers([s], ByOrder);
    CountExtremes(CompileReadiness([s]).scenes, IsApproved);
  }

  // ----- agreement with the animatic -----

  /** The same scene, as each compiler is handed it. */
  predicate Corresponds(a: A.Scene, s: Scene) {
    && a.sceneId == s.sceneId && a.sceneOrder == s.sceneOrder && a.specRevision == s.specRevision
    && a.selectedShotPlanId == s.selectedShotPlanId && a.selectedShotPlanRevision == s.selectedShotPlanRevision
    && A.PlanRevision(a) == s.selectedShotPlanSpecRevision
  }

  lemma SortedScenesCorrespond(animatic: seq<A.Scene>, scenes: seq<Scene>)
    requires Pointwise(animatic, scenes, Corresponds)
    ensures Pointwise(Sort(animatic, A.ByOrder), Sort(scenes, ByOrder), Corresponds)
  {
    SortCorresponds(animatic, scenes, A.ByOrder, ByOrder, Corresponds);
  }

  /** Projection i is included exactly when segment i has a plan, and a gap carries the same reason. */
  lemma ProjectionsAgreeWithSegments(animatic: seq<A.Scene>, scenes: seq<Scene>)
    requires Pointwise(animatic, scenes, Corresponds)
    ensures var segs, ps := A.Compiled(animatic).segments, CompileReadiness(scenes).scenes;
            && |segs| == |ps|
            && forall i | 0 <= i < |ps| ::
                 && ps[i].sceneId == segs[i].sceneId
                 && (ps[i].included <==> segs[i].content.ShotContent?)
                 && (segs[i].content.GapContent? ==> ps[i].gapReason == Some(segs[i].content.reason))
  {
    SortedScenesCorrespond(animatic, scenes);
    var xs, ys := Sort(animatic, A.ByOrder), Sort(scenes, ByOrder);
    forall i | 0 <= i < |ys| ensures A.Gap(xs[i]) == Gap(ys[i]) {
      assert Corresponds(xs[i], ys[i]);
    }
  }

  /** Both compilers count the same scenes in the animatic. */
  lemma CompilersAgreeOnCounts(animatic: seq<A.Scene>, scenes: seq<Scene>)
    requires Pointwise(animatic, scenes, Corresponds)
    ensures var m, a := A.Compiled(animatic), CompileReadiness(scenes).aggregates;
            && a.scenesInCampaignAnimaticCount == m.approvedShotCount + m.draftShotCount == m.totalScenes - m.gapCount
            && a.totalScenes == m.totalScenes
  {
    var m, ps := A.Compiled(animatic), CompileReadiness(scenes).scenes;
    ProjectionsAgreeWithSegments(animatic, scenes);
    A.CountsPartitionScenes(animatic);
    CountIsSum(ps, IsIncluded, m.segments, A.SegmentIsShot);
    SortIsPermutation(animatic, A.ByOrder);
  }

  /** A planning-ready campaign has a non-empty animatic without gaps. */
  lemma ReadyCampaignHasGapFreeAnimatic(animatic: seq<A.Scene>, scenes: seq<Scene>)
    requires Pointwise(animatic, scenes, Corresponds)
    requires CompileReadiness(scenes).readinessStatus.PlanningReady?
    ensures var m := A.Compiled(animatic);
            && m.segments != [] && m.gapCount == 0
            && (forall i | 0 <= i < |m.segments| :: m.segments[i].content.ShotContent?)
            && m.totalDurationMs == m.includedShotPlanDurationMs
  {
    var m, r := A.Compiled(animatic), CompileReadiness(scenes);
    ReadyCampaignCounts(scenes);
    CompilersAgreeOnCounts(animatic, scenes);
    ProjectionsAgreeWithSegments(animatic, scenes);
    CountExtremes(r.scenes, IsIncluded);
    assert forall i | 0 <= i < |r.scenes| :: IsIncluded(r.scenes[i]);
    A.TotalIsIncludedPlusGaps(animatic);
    ZeroGapLength(m.segments);
  }

  lemma {:induction false} ZeroGapLength(segs: seq<A.Segment>)
    requires forall i | 0 <= i < |segs| :: segs[i].content.ShotContent?
    ensures Sum(segs, A.GapLength) == 0
  {
    if segs != [] {
      ZeroGapLength(segs[..|segs| - 1]);
    }
  }
}
