// The plan that is made from a bundle's files: numbered steps and a summary that counts what is not ready.
module MigrationPlan {
  import opened CutoverRun
  import opened MigrationClient

  /** What is found out about one file: whether its step is ready, and what is to be said about it. */
  datatype Finding = Finding(status: PlanStatus, message: string)

  predicate AllFoundReady(findings: seq<Finding>) {
    forall i :: 0 <= i < |findings| ==> findings[i].status == StepReady
  }

  /** One step per file, in the files' order. The plan is ready when the bundle is valid, there is a step, and every
      step is ready. */
  method BuildPlan(validationReady: bool, files: seq<BundleFile>, findings: seq<Finding>) returns (plan: Plan)
    requires |findings| == |files|
    ensures WellSummarized(plan) && Numbered(plan) && |plan.steps| == |files|
    ensures forall i :: 0 <= i < |files| ==>
      && MadeFrom(plan.steps[i], files[i])
      && plan.steps[i].status == findings[i].status && plan.steps[i].message == findings[i].message
    ensures plan.needsContextCount == |StepsWith(plan.steps, NeedsContext)|
    ensures plan.blockedCount == |StepsWith(plan.steps, StepBlocked)|
    ensures plan.validationReady == validationReady
    ensures plan.ready <==> validationReady && files != [] && AllFoundReady(findings)
  {
    var steps := [];
    for i := 0 to |files|
      invariant |steps| == i
      invariant forall j :: 0 <= j < i ==>
        steps[j] == PlanStep(j + 1, files[j].kind, files[j].fileName, findings[j].status, findings[j].message)
    {
      steps := steps + [PlanStep(|steps| + 1, files[i].kind, files[i].fileName, findings[i].status,
                                 findings[i].message)];
    }
    var needsContext, blocked := CountNotReady(steps);
    plan := Plan(validationReady, validationReady && |steps| > 0 && needsContext == 0 && blocked == 0,
                 needsContext, blocked, steps);
    assert AllFoundReady(findings) <==> AllReady(plan) by {
      assert forall i :: 0 <= i < |files| ==> plan.steps[i].status == findings[i].status;
    }
  }

  function StepsWith(steps: seq<PlanStep>, status: PlanStatus): set<int> {
    set i | 0 <= i < |steps| && steps[i].status == status
  }

  method CountNotReady(steps: seq<PlanStep>) returns (needsContext: nat, blocked: nat)
    ensures needsContext == |StepsWith(steps, NeedsContext)| && blocked == |StepsWith(steps, StepBlocked)|
    ensures needsContext == 0 && blocked == 0 <==> forall i :: 0 <= i < |steps| ==> steps[i].status == StepReady
  {
    needsContext, blocked := 0, 0;
    for i := 0 to |steps|
      invariant needsContext == |StepsWith(steps[..i], NeedsContext)|
      invariant blocked == |StepsWith(steps[..i], StepBlocked)|
      invariant needsContext == 0 && blocked == 0 <==> forall j :: 0 <= j < i ==> steps[j].status == StepReady
    {
      StepsWithNext(steps, i, NeedsContext);
      StepsWithNext(steps, i, StepBlocked);
      match steps[i].status {
        case StepReady =>
        case NeedsContext => needsContext := needsContext + 1;
        case StepBlocked => blocked := blocked + 1;
      }
    }
    assert steps[..|steps|] == steps;
  }

  lemma StepsWithNext(steps: seq<PlanStep>, i: nat, status: PlanStatus)
    requires i < |steps|
    ensures |StepsWith(steps[..i + 1], status)|
         == |StepsWith(steps[..i], status)| + if steps[i].status == status then 1 else 0
  {
    var before := StepsWith(steps[..i], status);
    assert StepsWith(steps[..i + 1], status) == if steps[i].status == status then before + {i} else before;
  }

  /** A plan made from the bundle's files in any order is made from the bundle. */
  lemma PlannedInAnyOrder(plan: Plan, sorted: seq<BundleFile>, files: seq<BundleFile>)
    requires |plan.steps| == |sorted| && multiset(sorted) == multiset(files)
    requires forall i :: 0 <= i < |sorted| ==> MadeFrom(plan.steps[i], sorted[i])
    ensures PlannedOver(plan, files)
  {
    forall i | 0 <= i < |plan.steps|
      ensures MadeFromOneOf(plan.steps[i], files)
    {
      assert sorted[i] in multiset(files);
      var j :| 0 <= j < |files| && files[j] == sorted[i];
      assert MadeFrom(plan.steps[i], files[j]);
    }
  }
}
