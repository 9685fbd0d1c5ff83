/** The devflow plan, the workflow each stage is compiled to, and the runner that executes it. */
module DevflowPlan {
  import opened Wrappers
  import opened GitGates

  datatype Mode = MutablePrimary | MutableTest | VerifyOnly | ReadOnly

  datatype StagePlan = StagePlan(name: string, role: string, mode: Mode, retryBudget: int, approvalRequired: bool)

  datatype Plan = Plan(repoRoot: string, runRoot: string, stages: seq<StagePlan>)

  predicate DistinctNames(plan: Plan) {
    forall j, k :: 0 <= j < k < |plan.stages| ==> plan.stages[j].name != plan.stages[k].name
  }

  predicate Mutable(mode: Mode) {
    mode in {MutablePrimary, MutableTest}
  }

  predicate Protected(mode: Mode) {
    mode in {VerifyOnly, ReadOnly}
  }

  // A stage may change its workspace exactly when it is not one that is checked against changes.
  lemma MutableIff(mode: Mode)
    ensures Mutable(mode) <==> !Protected(mode)
    ensures Protected(mode) <==> ModeName(mode) in {"verify_only", "read_only"}
  {
    assert ModeName(mode)[0] == 'm' || ModeName(mode) in {"verify_only", "read_only"};
  }

  function ModeName(mode: Mode): string {
    match mode
    case MutablePrimary => "mutable_primary"
    case MutableTest => "mutable_test"
    case VerifyOnly => "verify_only"
    case ReadOnly => "read_only"
  }

  // The stable workspace of a stage, where it is both planned and prepared.
  function WorkspacePath(plan: Plan, stage: StagePlan): string {
    plan.runRoot + "/workspaces/" + stage.name + "-" + ModeName(stage.mode)
  }

  datatype StepKind = StageRecord | GitSnapshot | WorkerDispatch | ArtifactGate | GitMutationGate | ArtifactManifest

  // The steps of one stage's workflow, in order.
  function CompileStage(stage: StagePlan): seq<StepKind> {
    [StageRecord] + (if Protected(stage.mode) then [GitSnapshot] else []) + [WorkerDispatch, ArtifactGate]
    + (if Protected(stage.mode) then [GitMutationGate] else []) + [ArtifactManifest]
  }

  // What the steps of one stage saw: the snapshot taken at its step, whether the session succeeded, whether every
  // required artifact was there, and the snapshot captured at the gate.
  datatype Observations = Observations(before: Snapshot, dispatchOk: bool, artifactsReady: bool, after: Snapshot)

  predicate StepOk(kind: StepKind, seen: Observations) {
    match kind
    case GitSnapshot => seen.before.gitRoot.Some?
    case WorkerDispatch => seen.dispatchOk
    case ArtifactGate => seen.artifactsReady
    case GitMutationGate => Unchanged(seen.before, seen.after)
    case _ => true
  }

  // Whether a stage's results hold no failure.
  predicate AllOk(stage: StagePlan, seen: Observations) {
    forall kind :: kind in CompileStage(stage) ==> StepOk(kind, seen)
  }

  // The runner's loop; a compiled stage runs all its steps, because its workflow does not stop on failure.
  method RunSteps(steps: seq<StepKind>, seen: Observations, stopOnFailure: bool)
    returns (results: seq<(StepKind, bool)>)
    ensures |results| <= |steps|
    ensures forall i :: 0 <= i < |results| ==> results[i] == (steps[i], StepOk(steps[i], seen))
    ensures (forall i :: 0 <= i < |results| ==> results[i].1) <==> (forall kind :: kind in steps ==> StepOk(kind, seen))
    ensures |results| < |steps| ==> stopOnFailure && results != [] && !Last(results).1
    ensures stopOnFailure ==> forall i :: 0 <= i < |results| - 1 ==> results[i].1
  {
    results := [];
    for n := 0 to |steps|
      invariant |results| == n
      invariant forall i :: 0 <= i < n ==> results[i] == (steps[i], StepOk(steps[i], seen))
      invariant stopOnFailure ==> forall i :: 0 <= i < n ==> results[i].1
    {
      var ok;
      if steps[n] == GitMutationGate {
        var check := CheckTrackedMutations(seen.before, seen.after);
        ok := check.ok;
      } else {
        ok := StepOk(steps[n], seen);
      }
      results := results + [(steps[n], ok)];
      if stopOnFailure && !ok {
        assert results[n].1 == false && steps[n] in steps;
        return;
      }
    }
    if forall i :: 0 <= i < |results| ==> results[i].1 {
      forall kind | kind in steps ensures StepOk(kind, seen) {
        var i :| 0 <= i < |steps| && steps[i] == kind;
        assert results[i].1;
      }
    } else {
      var i :| 0 <= i < |results| && !results[i].1;
      assert steps[i] in steps;
    }
  }

  // What a stage without failures demands of its environment: a session that succeeded and every required artifact,
  // and in a stage that must not change the checkout the same tracked files before and after.
  lemma AllOkIff(stage: StagePlan, seen: Observations)
    ensures AllOk(stage, seen) <==>
              && seen.dispatchOk && seen.artifactsReady
              && (stage.mode in {VerifyOnly, ReadOnly} ==>
                    seen.before.gitRoot.Some? && seen.after.gitRoot.Some? && seen.before.files == seen.after.files)
  {
    var steps := CompileStage(stage);
    if AllOk(stage, seen) {
      assert WorkerDispatch in steps && ArtifactGate in steps;
      assert Protected(stage.mode) ==> GitSnapshot in steps && GitMutationGate in steps;
    }
  }

  // The stage is recorded first and the manifest written last; no step comes twice, and the artifacts are looked for
  // behind the worker.
  lemma WorkComesBeforeGates(stage: StagePlan)
    ensures var steps := CompileStage(stage);
            && steps[0] == StageRecord && Last(steps) == ArtifactManifest
            && (forall i, j :: 0 <= i < j < |steps| ==> steps[i] != steps[j])
            && exists w, a :: 0 < w < a < |steps| && steps[w] == WorkerDispatch && steps[a] == ArtifactGate
  {
    var steps := CompileStage(stage);
    if Protected(stage.mode) {
      assert steps == [StageRecord, GitSnapshot, WorkerDispatch, ArtifactGate, GitMutationGate, ArtifactManifest];
      assert steps[2] == WorkerDispatch && steps[3] == ArtifactGate;
    } else {
      assert steps == [StageRecord, WorkerDispatch, ArtifactGate, ArtifactManifest];
      assert steps[1] == WorkerDispatch && steps[2] == ArtifactGate;
    }
  }

  // A protected stage without failures had the same tracked files before its worker ran and at its gate.
  lemma ProtectedStageUnchanged(stage: StagePlan, seen: Observations)
    requires Protected(stage.mode) && AllOk(stage, seen)
    ensures exists s, w, g :: 0 <= s < w < g < |CompileStage(stage)| && CompileStage(stage)[s] == GitSnapshot
              && CompileStage(stage)[w] == WorkerDispatch && CompileStage(stage)[g] == GitMutationGate
    ensures seen.before.gitRoot.Some? && seen.after.gitRoot.Some? && seen.before.files == seen.after.files
  {
    var steps := CompileStage(stage);
    assert steps[1] == GitSnapshot && steps[2] == WorkerDispatch && steps[4] == GitMutationGate;
    assert GitMutationGate in steps;
  }
}
