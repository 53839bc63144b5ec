/**
  Assembly manifests (packages/contracts/src/assembly-manifest.ts): the
  manifest schema is met by exactly the accepted executions with their own
  stem ids, and building a manifest from an accepted execution cannot fail on
  the execution's account.
*/
module AssemblyManifest {
  import opened Common
  import opened AssemblyExecution

  datatype Manifest = Manifest(
    createdAt: string,
    governanceDecisionId: string,
    generationManifestIds: seq<string>,
    executed: Executed)

  datatype ManifestError = HashMismatch | SchemaError

  function StemIds(stems: seq<Stem>): seq<string> {
    seq(|stems|, i requires 0 <= i < |stems| => stems[i].generationManifestId)
  }

  /** The field checks of the manifest schema. */
  predicate ManifestFieldsHold(env: Environment, m: Manifest) {
    && env.validDate(m.createdAt) && m.governanceDecisionId != ""
    && m.generationManifestIds != []
    && (forall i | 0 <= i < |m.generationManifestIds| :: m.generationManifestIds[i] != "")
    && FieldsHold(m.executed)
  }

  /** Mismatches of the first n ids, by position. */
  function PositionReport(before: seq<Issue>, ids: seq<string>, stems: seq<Stem>, n: nat): seq<Issue>
    requires n <= |ids| == |stems|
  {
    if n == 0 then before
    else Report(PositionReport(before, ids, stems, n - 1), ids[n - 1] == stems[n - 1].generationManifestId,
                ManifestId(n - 1))
  }

  function IdReport(before: seq<Issue>, m: Manifest): seq<Issue> {
    if |m.generationManifestIds| != |m.executed.stems| then before + [ManifestIdCount]
    else PositionReport(before, m.generationManifestIds, m.executed.stems, |m.generationManifestIds|)
  }

  method CheckIds(m: Manifest, ctx: RefinementContext)
    modifies ctx
    ensures ctx.issues == IdReport(old(ctx.issues), m)
  {
    var ids, stems := m.generationManifestIds, m.executed.stems;
    if |ids| != |stems| {
      ctx.Expect(false, ManifestIdCount);
    } else {
      for i := 0 to |ids|
        invariant ctx.issues == PositionReport(old(ctx.issues), ids, stems, i)
      {
        ctx.Expect(ids[i] == stems[i].generationManifestId, ManifestId(i));
      }
    }
  }

  ghost function ManifestReport(before: seq<Issue>, env: Environment, m: Manifest): seq<Issue> {
    ResultReport(IdReport(before, m), env, m.executed)
  }

  ghost predicate ManifestAccepted(env: Environment, m: Manifest) {
    ManifestFieldsHold(env, m) && ManifestReport([], env, m) == []
  }

  method ParseManifest(env: Environment, m: Manifest) returns (ok: bool)
    ensures ok <==> ManifestAccepted(env, m)
  {
    var ctx := new RefinementContext();
    CheckIds(m, ctx);
    RefineResult(env, m.executed, ctx);
    ok := ManifestFieldsHold(env, m) && ctx.issues == [];
  }

  lemma {:induction false} NoPositionIssueIff(before: seq<Issue>, ids: seq<string>, stems: seq<Stem>, n: nat)
    requires n <= |ids| == |stems|
    ensures PositionReport(before, ids, stems, n) == [] <==>
            before == [] && forall i | 0 <= i < n :: ids[i] == stems[i].generationManifestId
  {
    if n > 0 {
      NoPositionIssueIff(before, ids, stems, n - 1);
    }
  }

  /** A manifest is accepted exactly when its execution is, under the stems' own ids in listing order. */
  lemma ManifestAcceptedIff(env: Environment, m: Manifest)
    ensures ManifestAccepted(env, m) <==>
            && ResultAccepted(env, m.executed) && m.generationManifestIds == StemIds(m.executed.stems)
            && m.governanceDecisionId != "" && env.validDate(m.createdAt)
  {
    if |m.generationManifestIds| == |m.executed.stems| {
      NoPositionIssueIff([], m.generationManifestIds, m.executed.stems, |m.generationManifestIds|);
      assert IdReport([], m) == [] <==> m.generationManifestIds == StemIds(m.executed.stems);
    }
    if FieldsHold(m.executed) {
      NoIssueIff(IdReport([], m), env, m.executed);
      NoIssueIff([], env, m.executed);
    }
  }

  /** createAssemblyManifest */
  method CreateManifest(env: Environment, e: Executed, governanceDecisionId: string, createdAt: string)
    returns (r: Result<Manifest, ManifestError>)
    ensures r.Ok? <==> ResultAccepted(env, e) && governanceDecisionId != "" && env.validDate(createdAt)
    ensures r.Ok? ==>
              && ManifestAccepted(env, r.value) && r.value.executed == e
              && r.value.generationManifestIds == StemIds(e.stems)
              && r.value.governanceDecisionId == governanceDecisionId && r.value.createdAt == createdAt
    ensures r == Err(HashMismatch) <==> e.subtitleCuesSha256 != env.hash(CuesOf(e))
  {
    if FieldsHold(e) {
      NoIssueIff([], env, e);
    }
    if e.subtitleCuesSha256 != env.hash(CuesOf(e)) {
      return Err(HashMismatch);
    }
    var m := Manifest(createdAt, governanceDecisionId, StemIds(e.stems), e);
    ManifestAcceptedIff(env, m);
    var ok := ParseManifest(env, m);
    return if ok then Ok(m) else Err(SchemaError);
  }
}
