// What the summary of a run tells about its steps, and what a resumed run takes from the previous one.
module CutoverRunLaws {
  import opened Options
  import opened CutoverRun
  import opened MigrationResume

  // ----- Tally and progress -----

  lemma {:induction false} CountIsCardinality(steps: seq<StepRun>, status: StepStatus, found: set<int>)
    requires forall k {:trigger k in found} :: k in found <==> 0 <= k < |steps| && steps[k].status == status
    ensures Count(steps, status) == |found|
  {
    if steps == [] {
      assert forall k :: k !in found;
    } else {
      var n := |steps| - 1;
      assert n in found <==> steps[n].status == status;
      CountIsCardinality(steps[..n], status, found - {n});
    }
  }

  lemma {:induction false} EveryStepIsCounted(steps: seq<StepRun>)
    ensures Count(steps, Planned) + Count(steps, Running) + Count(steps, Skipped) + Count(steps, Succeeded)
            + Count(steps, Failed) == |steps|
  {
    if steps != [] {
      EveryStepIsCounted(steps[..|steps| - 1]);
    }
  }

  lemma PercentTells(completed: nat, total: nat)
    requires completed <= total && total > 0
    ensures Percent(completed, total) <= 100
    ensures Percent(completed, total) == 100 <==> completed == total
    ensures Percent(completed, total) * total <= completed * 100 < (Percent(completed, total) + 1) * total
  {
    var percent := Percent(completed, total);
    Quotient(completed * 100, total, percent);
    Cancel(percent, 101, total);
    if completed < total {
      Cancel(percent, 100, total);
    } else {
      Cancel(100, percent + 1, total);
    }
  }

  lemma Quotient(a: nat, n: nat, q: nat)
    requires n > 0 && q == a / n
    ensures q * n <= a < (q + 1) * n
  {}

  lemma Cancel(a: nat, b: nat, n: nat)
    requires a * n < b * n
    ensures a < b
  {
    if b <= a {
      TimesIsMonotone(b, a, n);
      assert false;
    }
  }

  lemma TimesIsMonotone(a: nat, b: nat, n: nat)
    requires a <= b
    ensures a * n <= b * n
  {}

  function StepsIn(run: Snapshot, status: StepStatus): set<int> {
    set k | 0 <= k < |run.steps| && run.steps[k].status == status
  }

  /** A refreshed summary counts every step once, under its status. What is completed and what remains make up the
      total, and the percentage, rounded down, is 100 exactly when nothing remains. */
  lemma SummaryTells(run: Snapshot)
    requires run.steps != []
    ensures var summary := Refreshed(run).summary;
      var tally, progress := summary.tally, summary.progress;
      && tally.total == |run.steps|
      && tally.planned == |StepsIn(run, Planned)| && tally.running == |StepsIn(run, Running)|
      && tally.skipped == |StepsIn(run, Skipped)| && tally.succeeded == |StepsIn(run, Succeeded)|
      && tally.failed == |StepsIn(run, Failed)|
      && tally.planned + tally.running + tally.skipped + tally.succeeded + tally.failed == tally.total
      && progress.completedCount == tally.succeeded + tally.failed
      && progress.completedCount + progress.remainingCount == tally.total
      && progress.percent <= 100 && (progress.percent == 100 <==> progress.remainingCount == 0)
      && progress.percent * tally.total <= progress.completedCount * 100 < (progress.percent + 1) * tally.total
  {
    EveryStepIsCounted(run.steps);
    CountIsCardinality(run.steps, Planned, StepsIn(run, Planned));
    CountIsCardinality(run.steps, Running, StepsIn(run, Running));
    CountIsCardinality(run.steps, Skipped, StepsIn(run, Skipped));
    CountIsCardinality(run.steps, Succeeded, StepsIn(run, Succeeded));
    CountIsCardinality(run.steps, Failed, StepsIn(run, Failed));
    PercentTells(Count(run.steps, Succeeded) + Count(run.steps, Failed), |run.steps|);
  }

  // ----- What a resume takes over -----

  lemma {:induction false} TakenOverAreSucceeded(steps: seq<StepRun>, done: map<StepKey, StepRun>)
    requires forall k :: 0 <= k < |steps| ==> steps[k].status != Succeeded
    ensures TakenOver(steps, done) == Count(ResumedSteps(steps, done), Succeeded)
  {
    if steps != [] {
      var n := |steps| - 1;
      TakenOverAreSucceeded(steps[..n], done);
      assert ResumedSteps(steps, done)[..n] == ResumedSteps(steps[..n], done);
    }
  }

  /** A new run tells how many steps it has taken over, and that it is resumed exactly when there are any. */
  lemma ResumedCountTells(plan: Plan, confirmed: bool, from: Option<Snapshot>, run: Snapshot)
    requires run == NewResumableRun(plan, confirmed, from)
    ensures run.summary.resumedCount == |StepsIn(run, Succeeded)|
    ensures run.summary.resumed <==> run.summary.resumedCount > 0
  {
    NewStepsAreNotSucceeded(plan, confirmed);
    CountOfResumed(NewRun(plan, confirmed), from, run);
    CountIsCardinality(run.steps, Succeeded, StepsIn(run, Succeeded));
  }

  lemma NewStepsAreNotSucceeded(plan: Plan, confirmed: bool)
    ensures var made := NewRun(plan, confirmed);
      && (forall k :: 0 <= k < |made.steps| ==> made.steps[k].status != Succeeded)
      && made.summary.resumedCount == 0 && !made.summary.resumed
  {}

  lemma CountOfResumed(made: Snapshot, from: Option<Snapshot>, run: Snapshot)
    requires forall k :: 0 <= k < |made.steps| ==> made.steps[k].status != Succeeded
    requires made.summary.resumedCount == 0 && !made.summary.resumed && run == Resumed(made, from)
    ensures run.summary.resumedCount == Count(run.steps, Succeeded)
    ensures run.summary.resumed <==> run.summary.resumedCount > 0
  {
    NoneSucceeded(made.steps);
    if from.Some? {
      TakenOverAreSucceeded(made.steps, Successes(from.value.steps));
    }
  }

  lemma {:induction false} NoneSucceeded(steps: seq<StepRun>)
    requires forall k :: 0 <= k < |steps| ==> steps[k].status != Succeeded
    ensures Count(steps, Succeeded) == 0
  {
    if steps != [] {
      NoneSucceeded(steps[..|steps| - 1]);
    }
  }

  /** A success of the previous run with this key, and no later one has it. */
  predicate LastSuccess(steps: seq<StepRun>, key: StepKey, j: nat) {
    && j < |steps| && steps[j].status == Succeeded && KeyOf(steps[j]) == key
    && forall i :: j < i < |steps| && steps[i].status == Succeeded ==> KeyOf(steps[i]) != key
  }

  lemma {:induction false} FindLastSuccess(steps: seq<StepRun>, key: StepKey) returns (j: nat)
    requires key in Successes(steps)
    ensures LastSuccess(steps, key, j) && Successes(steps)[key] == steps[j]
  {
    var n := |steps| - 1;
    if steps[n].status == Succeeded && KeyOf(steps[n]) == key {
      j := n;
    } else {
      j := FindLastSuccess(steps[..n], key);
    }
  }

  /** A step that is taken over keeps the response of the last success with its number, kind and file. */
  lemma TakenOverKeepsResponse(plan: Plan, confirmed: bool, from: Snapshot, k: nat) returns (j: nat)
    requires k in Done(NewResumableRun(plan, confirmed, Some(from)))
    ensures var run := NewResumableRun(plan, confirmed, Some(from));
      && LastSuccess(from.steps, KeyOf(run.steps[k]), j)
      && run.steps[k].response == from.steps[j].response && run.steps[k].error == ""
  {
    NewRunIsFresh(plan, confirmed);
    StepsOfResumed(NewRun(plan, confirmed), from);
    assert k !in Done(NewRun(plan, confirmed));
    j := FindLastSuccess(from.steps, KeyOf(NewRun(plan, confirmed).steps[k]));
  }
}
