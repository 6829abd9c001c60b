// The answer to a migration request, told from what the previous snapshot has done and what the importer answers.
module MigrationAnswers {
  import opened Options
  import opened CutoverRun
  import opened BundleFiles
  import opened MigrationServer
  import opened MigrationResume
  import opened MigrationStatus

  /** A step that is not done yet, and whose import is refused. */
  predicate RefusedStep(plan: Plan, done: set<nat>, answers: Answers, k: nat) {
    k < |plan.steps| && k !in done && k in answers && answers[k].Failure?
  }

  predicate SomeRefused(plan: Plan, done: set<nat>, answers: Answers) {
    exists k: nat :: k < |plan.steps| && RefusedStep(plan, done, answers, k)
  }

  lemma {:induction false} RefusesFrom(steps: seq<StepRun>, answers: Answers, i: nat)
    ensures Refuses(steps, answers, i) <==>
      exists k: nat :: i <= k < |steps| && steps[k].status != Succeeded && k in answers && answers[k].Failure?
    decreases |steps| - i
  {
    if i < |steps| {
      RefusesFrom(steps, answers, i + 1);
      if exists k: nat :: i <= k < |steps| && steps[k].status != Succeeded && k in answers && answers[k].Failure? {
        var k: nat :| i <= k < |steps| && steps[k].status != Succeeded && k in answers && answers[k].Failure?;
        assert k == i || i + 1 <= k;
      }
    }
  }

  /** A run meets a refusal exactly when a step that it does not have done yet is refused. */
  lemma RefusesExactlyWhen(plan: Plan, run: Snapshot, done: set<nat>, answers: Answers)
    requires |run.steps| == |plan.steps| && Done(run) == done
    ensures Refuses(run.steps, answers, 0) <==> SomeRefused(plan, done, answers)
  {
    RefusesFrom(run.steps, answers, 0);
    if SomeRefused(plan, done, answers) {
      var k: nat :| k < |plan.steps| && RefusedStep(plan, done, answers, k);
      assert run.steps[k].status != Succeeded;
    }
    if k: nat :| k < |run.steps| && run.steps[k].status != Succeeded && k in answers && answers[k].Failure? {
      assert RefusedStep(plan, done, answers, k);
    }
  }

  /** The run stopped at the first refused step: that one has failed with the importer's error, all before it have
      succeeded, and none after it was touched. */
  predicate StoppedAt(run: Snapshot, before: Snapshot, answers: Answers, k: nat) {
    && k < |run.steps| == |before.steps| && before.steps[k].status != Succeeded
    && AnswerOf(answers, k).Failure?
    && run.steps[k].status == Failed && run.steps[k].error == AnswerOf(answers, k).error
    && (forall j :: 0 <= j < k ==> run.steps[j].status == Succeeded)
    && (forall j :: k < j < |run.steps| ==> run.steps[j] == before.steps[j])
  }

  /** What the last recorded snapshot of an uninterrupted loop shows. */
  ghost predicate LoopShows(run: Snapshot, before: Snapshot, answers: Answers, i: nat) {
    if Refuses(before.steps, answers, i) then
      && run.summary.status == SomeFailed
      && exists k: nat :: i <= k && StoppedAt(run, before, answers, k)
    else run.summary.status == AllSucceeded && Every(run.steps, Succeeded)
  }

  ghost predicate EndsShowing(events: seq<Event>, before: Snapshot, answers: Answers, i: nat) {
    && events != [] && events[|events| - 1].Saved?
    && LoopShows(events[|events| - 1].run, before, answers, i)
  }

  lemma {:induction false} LoopEndsShowing(plan: Plan, byKey: map<FileKey, BundleFile>, run: Snapshot, i: nat,
                                           answers: Answers)
    requires |run.steps| == |plan.steps| && i <= |plan.steps| && AtStep(run, i)
    ensures EndsShowing(LoopEvents(plan, byKey, run, i, answers), run, answers, i)
    decreases |plan.steps| - i
  {
    if i >= |plan.steps| {
      FinishSignalsEnd(run, i);
    } else if run.steps[i].status == Succeeded {
      LoopEndsShowing(plan, byKey, run, i + 1, answers);
    } else {
      var answer := AnswerOf(answers, i);
      var after := Imports(Marked(run, i), i, answer);
      StatusWhenImported(run, i, answer);
      ImportChangesOne(run, i, answer);
      if answer.Success? {
        LoopEndsShowing(plan, byKey, after, i + 1, answers);
        TakingShows(plan, byKey, run, i, answers, after, LoopEvents(plan, byKey, after, i + 1, answers));
      } else {
        RefusalShows(plan, byKey, run, i, answers, after);
      }
    }
  }

  lemma RefusalShows(plan: Plan, byKey: map<FileKey, BundleFile>, run: Snapshot, i: nat, answers: Answers,
                     after: Snapshot)
    requires i < |plan.steps| == |run.steps| == |after.steps| && AtStep(run, i) && run.steps[i].status != Succeeded
    requires AnswerOf(answers, i).Failure? && after == Imports(Marked(run, i), i, AnswerOf(answers, i))
    requires after.summary.status == SomeFailed
    ensures EndsShowing(LoopEvents(plan, byKey, run, i, answers), run, answers, i)
  {
    ImportChangesOne(run, i, AnswerOf(answers, i));
    assert StoppedAt(after, run, answers, i);
  }

  lemma TakingShows(plan: Plan, byKey: map<FileKey, BundleFile>, run: Snapshot, i: nat, answers: Answers,
                    after: Snapshot, rest: seq<Event>)
    requires i < |plan.steps| == |run.steps| == |after.steps| && run.steps[i].status != Succeeded
    requires AnswerOf(answers, i).Success? && after == Imports(Marked(run, i), i, AnswerOf(answers, i))
    requires rest == LoopEvents(plan, byKey, after, i + 1, answers) && EndsShowing(rest, after, answers, i + 1)
    ensures EndsShowing(LoopEvents(plan, byKey, run, i, answers), run, answers, i)
  {
    TakeAccepted(run, i, answers, after);
    var last := rest[|rest| - 1].run;
    assert LoopEvents(plan, byKey, run, i, answers)[|LoopEvents(plan, byKey, run, i, answers)| - 1] == Saved(last);
    if Refuses(after.steps, answers, i + 1) {
      var k: nat :| i + 1 <= k && StoppedAt(last, after, answers, k);
      ImportChangesOne(run, i, AnswerOf(answers, i));
      assert StoppedAt(last, run, answers, k);
    }
  }

  /** What the last snapshot of a confirmed run of a ready plan shows: it has failed, at the first step not done
      before whose import is refused, if there is such a step; otherwise all its steps have succeeded. */
  ghost predicate ShowsOutcome(last: Snapshot, plan: Plan, run: Snapshot, done: set<nat>, answers: Answers) {
    if SomeRefused(plan, done, answers) then
      && last.summary.status == SomeFailed
      && exists k: nat :: RefusedStep(plan, done, answers, k) && StoppedAt(last, run, answers, k)
    else last.summary.status == AllSucceeded && Every(last.steps, Succeeded)
  }

  lemma LoopOutcome(plan: Plan, byKey: map<FileKey, BundleFile>, run: Snapshot, done: set<nat>, answers: Answers,
                    rest: seq<Event>)
    requires |run.steps| == |plan.steps| && Done(run) == done && AtStep(run, 0)
    requires rest == LoopEvents(plan, byKey, run, 0, answers)
    ensures rest != [] && rest[|rest| - 1].Saved? && ShowsOutcome(rest[|rest| - 1].run, plan, run, done, answers)
    ensures Refuses(run.steps, answers, 0) <==> SomeRefused(plan, done, answers)
  {
    LoopEndsShowing(plan, byKey, run, 0, answers);
    RefusesExactlyWhen(plan, run, done, answers);
    if Refuses(run.steps, answers, 0) {
      var k: nat :| 0 <= k && StoppedAt(rest[|rest| - 1].run, run, answers, k);
      assert RefusedStep(plan, done, answers, k);
    }
  }

  /** The answer, for a run that is known and events that follow its first snapshot. */
  lemma AnswerShows(plan: Plan, run: Snapshot, rest: seq<Event>, done: set<nat>, confirm: bool, answers: Answers,
                    last: Event, response: Response)
    requires last == ([Saved(run)] + rest)[|rest|] && !response.Interrupted? && last == Saved(response.run)
    requires response.Confirmable? <==> !confirm
    requires response.NotReady? <==> confirm && !plan.ready
    requires response.ImportFailed? <==> confirm && plan.ready && SomeRefused(plan, done, answers)
    requires if !confirm || !plan.ready then rest == []
             else rest != [] && rest[|rest| - 1].Saved? && ShowsOutcome(rest[|rest| - 1].run, plan, run, done, answers)
    ensures Tells(response, plan, run, done, confirm, answers)
  {}

  ghost predicate Tells(response: Response, plan: Plan, run: Snapshot, done: set<nat>, confirm: bool, answers: Answers)
  {
    if !confirm then response == Confirmable(run)
    else if !plan.ready then response == NotReady(run)
    else
      && (if SomeRefused(plan, done, answers) then response.ImportFailed? else response.Executed?)
      && ShowsOutcome(response.run, plan, run, done, answers)
  }

  /** Under the hypotheses of every history, a request that nothing interrupts answers as follows. It asks for
      confirmation when that is missing, reports a plan that is not ready, fails at the first step not done before
      whose import is refused, and otherwise leaves every step succeeded. */
  lemma {:induction false} AnswerTells(plan: Plan, files: seq<BundleFile>, from: Option<Snapshot>, confirm: bool,
                                       answers: Answers, budget: nat, before: seq<Event>, after: seq<Event>,
                                       response: Response)
    requires WellSummarized(plan) && Numbered(plan) && Resumable(plan, from)
    requires Executes(plan, NewResumableRun(plan, confirm, from),
                      AttemptEvents(plan, files, from, Attempt(confirm, answers, budget)),
                      confirm, answers, budget, before, after, response)
    requires |AttemptEvents(plan, files, from, Attempt(confirm, answers, budget))| <= budget
    ensures Tells(response, plan, NewResumableRun(plan, confirm, from), DoneBefore(from), confirm, answers)
  {
    var run := NewResumableRun(plan, confirm, from);
    var rest := RestOfAttempt(plan, files, from, confirm, answers, budget, run);
    AnswerShows(plan, run, rest, DoneBefore(from), confirm, answers, after[|after| - 1], response);
  }

  /** The rest of an attempt, after its first snapshot. */
  lemma RestOfAttempt(plan: Plan, files: seq<BundleFile>, from: Option<Snapshot>, confirm: bool, answers: Answers,
                      budget: nat, run: Snapshot)
    returns (rest: seq<Event>)
    requires WellSummarized(plan) && Numbered(plan) && Resumable(plan, from)
    requires run == NewResumableRun(plan, confirm, from)
    ensures AttemptEvents(plan, files, from, Attempt(confirm, answers, budget)) == [Saved(run)] + rest
    ensures if !confirm || !plan.ready then rest == []
            else RestShows(rest, plan, run, DoneBefore(from), answers)
  {
    if confirm && plan.ready {
      RestOfConfirmed(plan, Indexed(files), from, answers, run);
    }
    rest := RestEvents(plan, files, run, confirm, answers);
  }

  ghost predicate RestShows(rest: seq<Event>, plan: Plan, run: Snapshot, done: set<nat>, answers: Answers) {
    && rest != [] && rest[|rest| - 1].Saved? && ShowsOutcome(rest[|rest| - 1].run, plan, run, done, answers)
    && (Refuses(run.steps, answers, 0) <==> SomeRefused(plan, done, answers))
  }

  lemma RestOfConfirmed(plan: Plan, byKey: map<FileKey, BundleFile>, from: Option<Snapshot>, answers: Answers,
                        run: Snapshot)
    requires WellSummarized(plan) && Numbered(plan) && Resumable(plan, from) && plan.ready
    requires run == NewResumableRun(plan, true, from)
    ensures |run.steps| == |plan.steps|
    ensures RestShows(LoopEvents(plan, byKey, run, 0, answers), plan, run, DoneBefore(from), answers)
  {
    ResumeTakesOver(plan, true, from, run);
    StartOfAttempt(plan, from, run);
    LoopOutcome(plan, byKey, run, DoneBefore(from), answers, LoopEvents(plan, byKey, run, 0, answers));
  }
}
