// The status in a saved snapshot tells watchers whether the execution that saved it is over.
module MigrationStatus {
  import opened Options
  import opened CutoverRun
  import opened BundleFiles
  import opened MigrationServer
  import opened MigrationResume

  /** The statuses at which the event stream stops. */
  predicate Terminal(status: RunStatus) {
    status == AllSucceeded || status == SomeFailed || status == Blocked || status == NeedsConfirmation
  }

  predicate HasImport(events: seq<Event>) {
    events != [] && (events[0].Imported? || HasImport(events[1..]))
  }

  /** A snapshot is terminal exactly when no import follows it. */
  ghost predicate SignalsEnd(events: seq<Event>) {
    events == []
    || (SignalsEnd(events[1..])
        && (events[0].Saved? ==> (Terminal(events[0].run.summary.status) <==> !HasImport(events[1..]))))
  }

  // ----- Counting -----

  predicate Some(steps: seq<StepRun>, status: StepStatus) {
    exists k :: 0 <= k < |steps| && steps[k].status == status
  }

  predicate Every(steps: seq<StepRun>, status: StepStatus) {
    forall k :: 0 <= k < |steps| ==> steps[k].status == status
  }

  lemma {:induction false} CountTells(steps: seq<StepRun>, status: StepStatus)
    ensures Count(steps, status) > 0 <==> Some(steps, status)
    ensures Count(steps, status) == |steps| <==> Every(steps, status)
  {
    if steps != [] {
      var n := |steps| - 1;
      CountTells(steps[..n], status);
      if Some(steps[..n], status) {
        var k :| 0 <= k < n && steps[..n][k].status == status;
        assert steps[k].status == status;
      }
    }
  }

  /** A confirmed run of a ready plan. */
  predicate UnderConfirmedPlan(run: Snapshot) {
    && run.steps != []
    && run.summary.context.planReady && run.summary.context.confirmed && run.summary.context.validationReady
    && run.summary.context.needsContextCount == 0 && run.summary.context.blockedCount == 0
  }

  /** The status of such a run, from its steps. */
  lemma StatusFromSteps(run: Snapshot)
    requires UnderConfirmedPlan(run)
    ensures Refreshed(run).summary.status
         == if Some(run.steps, Failed) then SomeFailed
            else if Some(run.steps, Running) then InProgress
            else if Every(run.steps, Succeeded) then AllSucceeded
            else if Some(run.steps, Planned) then InProgress
            else Blocked
  {
    CountTells(run.steps, Failed);
    CountTells(run.steps, Running);
    CountTells(run.steps, Succeeded);
    CountTells(run.steps, Planned);
    CountTells(run.steps, Skipped);
    assert Some(run.steps, Failed) || Some(run.steps, Running) || Every(run.steps, Succeeded)
        || Some(run.steps, Planned) || Some(run.steps, Skipped) by {
      if !Every(run.steps, Succeeded) {
        var k :| 0 <= k < |run.steps| && run.steps[k].status != Succeeded;
      }
    }
  }

  // ----- The loop -----

  /** Between two steps: everything before i is done, everything else is done or planned. */
  predicate AtStep(run: Snapshot, i: nat) {
    && UnderConfirmedPlan(run)
    && (forall k :: 0 <= k < |run.steps| ==>
          run.steps[k].status == Succeeded || (run.steps[k].status == Planned && i <= k))
  }

  predicate Pending(run: Snapshot, i: nat) {
    exists k :: i <= k < |run.steps| && run.steps[k].status != Succeeded
  }

  lemma StatusAtStep(run: Snapshot, i: nat)
    requires AtStep(run, i)
    ensures Refreshed(run).summary.status == if Pending(run, i) then InProgress else AllSucceeded
  {
    StatusFromSteps(run);
    if Pending(run, i) {
      var k :| i <= k < |run.steps| && run.steps[k].status != Succeeded;
      assert run.steps[k].status == Planned;
    }
  }

  lemma StatusWhenMarked(run: Snapshot, i: nat)
    requires AtStep(run, i) && i < |run.steps|
    ensures Marked(run, i).summary.status == InProgress
    ensures UnderConfirmedPlan(Marked(run, i)) && |Marked(run, i).steps| == |run.steps|
  {
    var started := Snapshot(run.summary, run.steps[i := StartedStep(run.steps[i])]);
    StatusFromSteps(started);
    assert started.steps[i].status == Running;
  }

  lemma StatusWhenImported(run: Snapshot, i: nat, answer: ImportResult)
    requires AtStep(run, i) && i < |run.steps|
    ensures var after := Imports(Marked(run, i), i, answer);
      && (answer.Failure? ==> after.summary.status == SomeFailed)
      && (answer.Success? ==>
            && AtStep(after, i + 1)
            && after.summary.status == if Pending(after, i + 1) then InProgress else AllSucceeded)
  {
    var marked := Marked(run, i);
    var step := match answer
                case Success(text) => EndedStep(marked.steps[i], Succeeded, "Import completed.", "", text)
                case Failure(e) => EndedStep(marked.steps[i], Failed, "Import failed.", e, "");
    var ended := Snapshot(marked.summary, marked.steps[i := step]);
    assert Imports(marked, i, answer) == Refreshed(ended);
    StatusFromSteps(ended);
    if answer.Failure? {
      assert ended.steps[i].status == Failed;
    } else {
      assert AtStep(ended, i + 1);
      StatusAtStep(ended, i + 1);
      assert Pending(ended, i + 1) <==> Pending(Refreshed(ended), i + 1);
    }
  }

  /** An import is still to come exactly when a step from i on is pending. */
  lemma {:induction false} LoopImportsIffPending(plan: Plan, byKey: map<FileKey, BundleFile>, run: Snapshot, i: nat,
                                                 answers: Answers)
    requires |run.steps| == |plan.steps|
    ensures HasImport(LoopEvents(plan, byKey, run, i, answers)) <==> Pending(run, i)
    decreases |plan.steps| - i
  {
    if i >= |plan.steps| {
      assert [Saved(Finished(run))][1..] == [];
    } else if run.steps[i].status == Succeeded {
      LoopImportsIffPending(plan, byKey, run, i + 1, answers);
      if Pending(run, i) {
        var k :| i <= k < |run.steps| && run.steps[k].status != Succeeded;
        assert i + 1 <= k;
      }
    } else {
      assert LoopEvents(plan, byKey, run, i, answers)[1].Imported?;
      ImportAtOne(LoopEvents(plan, byKey, run, i, answers));
    }
  }

  lemma ImportAtOne(events: seq<Event>)
    requires |events| > 1 && events[1].Imported?
    ensures HasImport(events)
  {
    assert events[1..][0] == events[1];
  }

  lemma SignalsStep(marked: Snapshot, i: nat, file: BundleFile, ok: bool, after: Snapshot, rest: seq<Event>)
    requires !Terminal(marked.summary.status)
    requires SignalsEnd(rest) && (Terminal(after.summary.status) <==> !HasImport(rest))
    ensures SignalsEnd([Saved(marked), Imported(i, file, ok), Saved(after)] + rest)
  {
    var events := [Saved(marked), Imported(i, file, ok), Saved(after)] + rest;
    assert events[1..][1..][1..] == rest;
    assert events[1..][1..] == [Saved(after)] + rest;
    assert SignalsEnd(events[1..][1..]);
    assert SignalsEnd(events[1..]);
    ImportAtOne(events);
  }

  lemma {:induction false} LoopSignalsEnd(plan: Plan, byKey: map<FileKey, BundleFile>, run: Snapshot, i: nat,
                                          answers: Answers)
    requires |run.steps| == |plan.steps| && AtStep(run, i)
    ensures SignalsEnd(LoopEvents(plan, byKey, run, i, answers))
    decreases |plan.steps| - i
  {
    if i >= |plan.steps| {
      FinishSignalsEnd(run, i);
    } else if run.steps[i].status == Succeeded {
      assert AtStep(run, i + 1);
      LoopSignalsEnd(plan, byKey, run, i + 1, answers);
    } else {
      var answer := AnswerOf(answers, i);
      var after := Imports(Marked(run, i), i, answer);
      StatusWhenMarked(run, i);
      StatusWhenImported(run, i, answer);
      var rest: seq<Event> := [];
      if answer.Success? {
        LoopSignalsEnd(plan, byKey, after, i + 1, answers);
        LoopImportsIffPending(plan, byKey, after, i + 1, answers);
        rest := LoopEvents(plan, byKey, after, i + 1, answers);
      }
      SignalsStep(Marked(run, i), i, FileFor(byKey, plan.steps[i]), answer.Success?, after, rest);
    }
  }

  lemma FinishSignalsEnd(run: Snapshot, i: nat)
    requires AtStep(run, i) && i >= |run.steps|
    ensures Finished(run).summary.status == AllSucceeded
    ensures SignalsEnd([Saved(Finished(run))])
  {
    var claimed := Snapshot(run.summary.(status := AllSucceeded), run.steps);
    StatusFromSteps(claimed);
    assert [Saved(Finished(run))][1..] == [];
    assert SignalsEnd([Saved(Finished(run))][1..]);
  }

  // ----- The start of an attempt -----

  lemma StartOfAttempt(plan: Plan, from: Option<Snapshot>, run: Snapshot)
    requires WellSummarized(plan) && Numbered(plan) && Resumable(plan, from) && plan.ready
    requires run == NewResumableRun(plan, true, from)
    ensures AtStep(run, 0) && run.summary.status == if Pending(run, 0) then InProgress else AllSucceeded
  {
    ResumeTakesOver(plan, true, from, run);
    assert AtStep(run, 0);
    StatusAtStep(run, 0);
    var before := NewRunIsRefreshed(plan, true, from);
    RefreshSettles(run, before);
  }

  /** A run whose status, context and steps a refresh has just left like this. */
  predicate JustRefreshed(run: Snapshot, before: Snapshot) {
    && run.steps == before.steps && run.summary.context == before.summary.context
    && run.summary.status == Refreshed(before).summary.status
  }

  lemma RefreshSettles(run: Snapshot, before: Snapshot)
    requires UnderConfirmedPlan(run) && JustRefreshed(run, before)
    ensures Refreshed(run).summary.status == run.summary.status
  {
    StatusFromSteps(run);
    StatusFromSteps(before);
  }

  /** Nothing is running and nothing has failed. */
  predicate Quiet(run: Snapshot, plan: Plan, confirm: bool) {
    && (forall k :: 0 <= k < |run.steps| ==> run.steps[k].status != Failed && run.steps[k].status != Running)
    && run.summary.tally.failed == 0 && run.summary.tally.running == 0
    && (run.steps == [] ==> run.summary.tally.total == 0)
    && run.summary.context.planReady == plan.ready && run.summary.context.confirmed == confirm
  }

  lemma RefreshedIsQuiet(run: Snapshot, plan: Plan, confirm: bool)
    requires Quiet(run, plan, confirm)
    ensures Quiet(Refreshed(run), plan, confirm)
  {
    CountTells(run.steps, Failed);
    CountTells(run.steps, Running);
  }

  lemma ResumedStepsAreQuiet(run: Snapshot, plan: Plan, confirm: bool, done: map<StepKey, StepRun>)
    requires Quiet(run, plan, confirm)
    ensures Quiet(run.(steps := ResumedSteps(run.steps, done)), plan, confirm)
  {
    forall k | 0 <= k < |run.steps|
      ensures ResumedSteps(run.steps, done)[k].status != Failed && ResumedSteps(run.steps, done)[k].status != Running
    {
      assert ResumedSteps(run.steps, done)[k] == ResumedStep(run.steps[k], done);
    }
  }

  /** The last thing done to a new or resumed run, which is quiet, is a refresh of its summary. */
  lemma NewRunIsRefreshed(plan: Plan, confirm: bool, from: Option<Snapshot>) returns (before: Snapshot)
    ensures JustRefreshed(NewResumableRun(plan, confirm, from), before) && Quiet(before, plan, confirm)
  {
    before := Snapshot(NewSummary(plan, confirm), NewSteps(plan.steps, confirm));
    if from.Some? && Successes(from.value.steps) != map[] {
      RefreshedIsQuiet(before, plan, confirm);
      before := ResumedIsRefreshed(plan, confirm, NewRun(plan, confirm), Successes(from.value.steps), from);
    }
  }

  lemma ResumedIsRefreshed(plan: Plan, confirm: bool, run: Snapshot, done: map<StepKey, StepRun>,
                           from: Option<Snapshot>)
    returns (before: Snapshot)
    requires from.Some? && done == Successes(from.value.steps) != map[] && Quiet(run, plan, confirm)
    ensures JustRefreshed(Resumed(run, from), before) && Quiet(before, plan, confirm)
  {
    before := run.(steps := ResumedSteps(run.steps, done));
    ResumedStepsAreQuiet(run, plan, confirm, done);
    var count := TakenOver(run.steps, done);
    if count > 0 {
      var refreshed := Refreshed(before);
      RefreshedIsQuiet(before, plan, confirm);
      var counted := refreshed.(summary := refreshed.summary.(resumedCount := count));
      before := counted.(summary := counted.summary.(resumed := true));
    }
  }

  /** An attempt whose plan is not ready starts as blocked. One that is only not confirmed starts with a request for
      confirmation, unless every step has been taken over as succeeded. */
  lemma IdleAttemptStatus(plan: Plan, confirm: bool, from: Option<Snapshot>, run: Snapshot)
    requires (!confirm || !plan.ready) && run == NewResumableRun(plan, confirm, from)
    ensures run.summary.status
         == if !plan.ready then Blocked
            else if run.steps != [] && Every(run.steps, Succeeded) then AllSucceeded
            else NeedsConfirmation
  {
    var before := NewRunIsRefreshed(plan, confirm, from);
    IdleStatus(before, plan, confirm);
  }

  lemma IdleStatus(run: Snapshot, plan: Plan, confirm: bool)
    requires Quiet(run, plan, confirm) && (!confirm || !plan.ready)
    ensures Refreshed(run).summary.status
         == if !plan.ready then Blocked
            else if run.steps != [] && Every(run.steps, Succeeded) then AllSucceeded
            else NeedsConfirmation
  {
    RefreshedIsQuiet(run, plan, confirm);
    CountTells(run.steps, Succeeded);
  }

  lemma FirstSignals(run: Snapshot, rest: seq<Event>)
    requires SignalsEnd(rest) && (Terminal(run.summary.status) <==> !HasImport(rest))
    ensures SignalsEnd([Saved(run)] + rest)
  {
    assert ([Saved(run)] + rest)[1..] == rest;
  }

  lemma ConfirmedSignalsEnd(plan: Plan, byKey: map<FileKey, BundleFile>, from: Option<Snapshot>, answers: Answers,
                            run: Snapshot)
    requires WellSummarized(plan) && Numbered(plan) && Resumable(plan, from) && plan.ready
    requires run == NewResumableRun(plan, true, from) && |run.steps| == |plan.steps|
    ensures SignalsEnd([Saved(run)] + LoopEvents(plan, byKey, run, 0, answers))
  {
    StartOfAttempt(plan, from, run);
    LoopSignalsEnd(plan, byKey, run, 0, answers);
    LoopImportsIffPending(plan, byKey, run, 0, answers);
    FirstSignals(run, LoopEvents(plan, byKey, run, 0, answers));
  }

  /** A saved snapshot is terminal exactly when the attempt that saved it imports nothing more: a watcher that stops at
      a terminal status misses no import, and one that waits never waits in vain. */
  lemma {:induction false} TerminalMeansOver(plan: Plan, files: seq<BundleFile>, from: Option<Snapshot>,
                                             attempt: Attempt)
    requires WellSummarized(plan) && Numbered(plan) && Resumable(plan, from)
    ensures SignalsEnd(AttemptEvents(plan, files, from, attempt))
  {
    var run := NewResumableRun(plan, attempt.confirm, from);
    if attempt.confirm && plan.ready {
      ResumeTakesOver(plan, true, from, run);
      ConfirmedSignalsEnd(plan, Indexed(files), from, attempt.answers, run);
    } else {
      IdleAttemptStatus(plan, attempt.confirm, from, run);
      FirstSignals(run, []);
    }
  }
}
