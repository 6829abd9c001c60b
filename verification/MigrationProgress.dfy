// How far a migration execution has come: done steps form a prefix, an undisturbed attempt finishes the rest, and
// the saved status tells whether the attempt is over.
module MigrationProgress {
  import opened Options
  import opened CutoverRun
  import opened BundleFiles
  import opened MigrationServer
  import opened MigrationResume

  /** Exactly the first m steps are done. */
  predicate FirstDone(run: Snapshot, m: nat) {
    m <= |run.steps| && forall k :: 0 <= k < |run.steps| ==> (run.steps[k].status == Succeeded <==> k < m)
  }

  ghost predicate DonePrefix(run: Snapshot) {
    exists m: nat :: FirstDone(run, m)
  }

  ghost predicate AllDonePrefixes(events: seq<Event>) {
    events == [] || (AllDonePrefixes(events[1..]) && (events[0].Saved? ==> DonePrefix(events[0].run)))
  }

  lemma {:induction false} AllDonePrefixesConcat(a: seq<Event>, b: seq<Event>)
    requires AllDonePrefixes(a) && AllDonePrefixes(b)
    ensures AllDonePrefixes(a + b)
  {
    if a == [] {
      assert a + b == b;
    } else {
      assert (a + b)[1..] == a[1..] + b;
      AllDonePrefixesConcat(a[1..], b);
    }
  }

  lemma {:induction false} AllDonePrefixesUpTo(events: seq<Event>, cut: nat)
    requires AllDonePrefixes(events)
    ensures AllDonePrefixes(UpTo(events, cut))
  {
    if 0 < cut < |events| {
      assert events[..cut][1..] == events[1..][..cut - 1];
      AllDonePrefixesUpTo(events[1..], cut - 1);
    }
  }

  lemma {:induction false} AllDonePrefixesAt(events: seq<Event>, j: nat)
    requires AllDonePrefixes(events) && j < |events| && events[j].Saved?
    ensures DonePrefix(events[j].run)
  {
    if j > 0 {
      AllDonePrefixesAt(events[1..], j - 1);
    }
  }

  /** The loop skips the steps that are done. */
  lemma {:induction false} LoopSkipsDone(plan: Plan, byKey: map<FileKey, BundleFile>, run: Snapshot, i: nat, m: nat,
                                         answers: Answers)
    requires |run.steps| == |plan.steps| && FirstDone(run, m) && i <= m
    ensures LoopEvents(plan, byKey, run, i, answers) == LoopEvents(plan, byKey, run, m, answers)
    decreases m - i
  {
    if i < m {
      LoopSkipsDone(plan, byKey, run, i + 1, m, answers);
    }
  }

  /** From a run whose first i steps are done the loop imports step i next. */
  lemma {:induction false} LoopKeepsPrefixes(plan: Plan, byKey: map<FileKey, BundleFile>, run: Snapshot, i: nat,
                                             answers: Answers)
    requires |run.steps| == |plan.steps| && FirstDone(run, i)
    ensures AllDonePrefixes(LoopEvents(plan, byKey, run, i, answers))
    decreases |plan.steps| - i
  {
    if i >= |plan.steps| {
      FinishKeepsPrefix(run, i);
    } else {
      var after := Imports(Marked(run, i), i, AnswerOf(answers, i));
      ImportKeepsCount(run, i, AnswerOf(answers, i));
      if AnswerOf(answers, i).Success? {
        AfterPrefixStep(run, i, AnswerOf(answers, i));
        LoopKeepsPrefixes(plan, byKey, after, i + 1, answers);
      }
      TakingKeepsPrefixes(plan, byKey, run, i, answers, after, LoopEvents(plan, byKey, after, i + 1, answers));
    }
  }

  lemma TakingKeepsPrefixes(plan: Plan, byKey: map<FileKey, BundleFile>, run: Snapshot, i: nat, answers: Answers,
                            after: Snapshot, rest: seq<Event>)
    requires i < |plan.steps| == |run.steps| == |after.steps| && FirstDone(run, i)
    requires after == Imports(Marked(run, i), i, AnswerOf(answers, i))
    requires rest == LoopEvents(plan, byKey, after, i + 1, answers)
    requires AnswerOf(answers, i).Success? ==> AllDonePrefixes(rest)
    ensures AllDonePrefixes(LoopEvents(plan, byKey, run, i, answers))
  {
    AfterPrefixStep(run, i, AnswerOf(answers, i));
    PrefixStep(Marked(run, i), i, FileFor(byKey, plan.steps[i]), AnswerOf(answers, i).Success?, after,
               if AnswerOf(answers, i).Success? then rest else []);
  }

  lemma FinishKeepsPrefix(run: Snapshot, m: nat)
    requires FirstDone(run, m)
    ensures AllDonePrefixes([Saved(Finished(run))])
  {
    assert FirstDone(Finished(run), m);
    assert [Saved(Finished(run))][1..] == [] && AllDonePrefixes([Saved(Finished(run))][1..]);
  }

  lemma AfterPrefixStep(run: Snapshot, m: nat, answer: ImportResult)
    requires FirstDone(run, m) && m < |run.steps|
    ensures FirstDone(Marked(run, m), m)
    ensures |Imports(Marked(run, m), m, answer).steps| == |run.steps|
    ensures FirstDone(Imports(Marked(run, m), m, answer), if answer.Success? then m + 1 else m)
  {
    MarkingChangesOne(run, m);
    ImportChangesOne(run, m, answer);
  }

  lemma PrefixStep(marked: Snapshot, i: nat, file: BundleFile, ok: bool, after: Snapshot, rest: seq<Event>)
    requires DonePrefix(marked) && DonePrefix(after) && AllDonePrefixes(rest)
    ensures AllDonePrefixes([Saved(marked), Imported(i, file, ok), Saved(after)] + rest)
  {
    var events := [Saved(marked), Imported(i, file, ok), Saved(after)] + rest;
    assert events[1..][1..][1..] == rest;
    assert events[1..][1..] == [Saved(after)] + rest;
    assert AllDonePrefixes(events[1..][1..]);
    assert AllDonePrefixes(events[1..]);
  }

  lemma SavedKeepsPrefixes(run: Snapshot, rest: seq<Event>)
    requires DonePrefix(run) && AllDonePrefixes(rest)
    ensures AllDonePrefixes([Saved(run)] + rest)
  {
    assert ([Saved(run)] + rest)[1..] == rest;
  }

  lemma AttemptKeepsPrefixes(plan: Plan, files: seq<BundleFile>, from: Option<Snapshot>, attempt: Attempt)
    requires WellSummarized(plan) && Numbered(plan) && Resumable(plan, from)
    requires from.Some? ==> DonePrefix(from.value)
    ensures AllDonePrefixes(AttemptEvents(plan, files, from, attempt))
  {
    var run := NewResumableRun(plan, attempt.confirm, from);
    ResumeTakesOver(plan, attempt.confirm, from, run);
    var m := PrefixLength(from, run);
    var rest: seq<Event> := [];
    if attempt.confirm && plan.ready {
      LoopSkipsDone(plan, Indexed(files), run, 0, m, attempt.answers);
      LoopKeepsPrefixes(plan, Indexed(files), run, m, attempt.answers);
      rest := LoopEvents(plan, Indexed(files), run, 0, attempt.answers);
    }
    assert DonePrefix(run);
    SavedKeepsPrefixes(run, rest);
  }

  lemma PrefixLength(from: Option<Snapshot>, run: Snapshot) returns (m: nat)
    requires Done(run) == DoneBefore(from)
    requires from.Some? ==> DonePrefix(from.value) && |from.value.steps| == |run.steps|
    ensures FirstDone(run, m)
  {
    if from.None? {
      m := 0;
    } else {
      m :| FirstDone(from.value, m);
    }
    forall k: nat | k < |run.steps| ensures run.steps[k].status == Succeeded <==> k < m {
      assert k in Done(run) <==> k in DoneBefore(from);
    }
  }

  lemma {:induction false} HistoryKeepsPrefixes(plan: Plan, files: seq<BundleFile>, events: seq<Event>,
                                                attempts: seq<Attempt>)
    requires WellSummarized(plan) && Numbered(plan) && Consistent(plan, events) && AllDonePrefixes(events)
    ensures AllDonePrefixes(History(plan, files, events, attempts))
    decreases |attempts|
  {
    if attempts != [] {
      ExtendKeepsPrefixes(plan, files, events, attempts[0]);
      AttemptKeepsConsistent(plan, files, events, attempts[0]);
      var one := UpTo(AttemptEvents(plan, files, LastSaved(events), attempts[0]), attempts[0].cut);
      HistoryKeepsPrefixes(plan, files, events + one, attempts[1..]);
    }
  }

  lemma ExtendKeepsPrefixes(plan: Plan, files: seq<BundleFile>, events: seq<Event>, attempt: Attempt)
    requires WellSummarized(plan) && Numbered(plan) && Consistent(plan, events) && AllDonePrefixes(events)
    ensures AllDonePrefixes(events + UpTo(AttemptEvents(plan, files, LastSaved(events), attempt), attempt.cut))
  {
    var from := LastSaved(events);
    if from.Some? {
      var i := LastSavedIsSaved(events);
      AllDonePrefixesAt(events, i);
    }
    AttemptKeepsPrefixes(plan, files, from, attempt);
    AllDonePrefixesUpTo(AttemptEvents(plan, files, from, attempt), attempt.cut);
    AllDonePrefixesConcat(events, UpTo(AttemptEvents(plan, files, from, attempt), attempt.cut));
  }

  /** From a fresh start, under any schedule of interrupted and resumed attempts, every saved snapshot shows a prefix
      of the plan as succeeded. */
  lemma {:induction false} SucceededStepsFormAPrefix(plan: Plan, files: seq<BundleFile>, attempts: seq<Attempt>)
    requires WellSummarized(plan) && Numbered(plan)
    ensures var h := History(plan, files, [], attempts);
      forall j :: 0 <= j < |h| && h[j].Saved? ==> DonePrefix(h[j].run)
  {
    var h := History(plan, files, [], attempts);
    HistoryKeepsPrefixes(plan, files, [], attempts);
    forall j | 0 <= j < |h| && h[j].Saved? ensures DonePrefix(h[j].run) {
      AllDonePrefixesAt(h, j);
    }
  }

  // ----- An attempt that nothing disturbs -----

  function ImportedSteps(events: seq<Event>): seq<nat> {
    if events == [] then []
    else (if events[0].Imported? then [events[0].step] else []) + ImportedSteps(events[1..])
  }

  /** The steps from i to n that are not done, in order. */
  function Missing(done: set<nat>, i: nat, n: nat): seq<nat>
    decreases n - i
  {
    if i >= n then [] else (if i in done then [] else [i]) + Missing(done, i + 1, n)
  }

  lemma ImportedStepsNext(event: Event, rest: seq<Event>)
    ensures ImportedSteps([event] + rest) == (if event.Imported? then [event.step] else []) + ImportedSteps(rest)
  {
    assert ([event] + rest)[1..] == rest;
  }

  lemma StepImports(marked: Snapshot, i: nat, file: BundleFile, ok: bool, after: Snapshot, rest: seq<Event>)
    ensures ImportedSteps([Saved(marked), Imported(i, file, ok), Saved(after)] + rest) == [i] + ImportedSteps(rest)
  {
    ImportedStepsNext(Saved(marked), [Imported(i, file, ok), Saved(after)] + rest);
    ImportedStepsNext(Imported(i, file, ok), [Saved(after)] + rest);
    ImportedStepsNext(Saved(after), rest);
    assert [Saved(marked), Imported(i, file, ok), Saved(after)] + rest
        == [Saved(marked)] + ([Imported(i, file, ok), Saved(after)] + rest);
    assert [Imported(i, file, ok), Saved(after)] + rest == [Imported(i, file, ok)] + ([Saved(after)] + rest);
  }

  predicate NoFailure(answers: Answers) {
    forall i :: i in answers ==> answers[i].Success?
  }

  /** The last thing recorded is a snapshot with every step done. */
  predicate EndsComplete(events: seq<Event>, n: nat) {
    && events != []
    && events[|events| - 1].Saved?
    && |events[|events| - 1].run.steps| == n
    && FirstDone(events[|events| - 1].run, n)
  }

  lemma {:induction false} LoopEndsComplete(plan: Plan, byKey: map<FileKey, BundleFile>, run: Snapshot, i: nat,
                                            answers: Answers)
    requires |run.steps| == |plan.steps| && NoFailure(answers) && i <= |plan.steps|
    requires forall k :: 0 <= k < i ==> run.steps[k].status == Succeeded
    ensures EndsComplete(LoopEvents(plan, byKey, run, i, answers), |plan.steps|)
    decreases |plan.steps| - i
  {
    if i >= |plan.steps| {
      assert FirstDone(Finished(run), |plan.steps|);
    } else if run.steps[i].status == Succeeded {
      LoopEndsComplete(plan, byKey, run, i + 1, answers);
    } else {
      var after := Imports(Marked(run, i), i, AnswerOf(answers, i));
      ImportChangesOne(run, i, AnswerOf(answers, i));
      LoopEndsComplete(plan, byKey, after, i + 1, answers);
      TakingFinishes(plan, byKey, run, i, answers, after, LoopEvents(plan, byKey, after, i + 1, answers));
    }
  }

  lemma TakingFinishes(plan: Plan, byKey: map<FileKey, BundleFile>, run: Snapshot, i: nat, answers: Answers,
                       after: Snapshot, rest: seq<Event>)
    requires i < |plan.steps| == |run.steps| == |after.steps| && run.steps[i].status != Succeeded
    requires AnswerOf(answers, i).Success? && after == Imports(Marked(run, i), i, AnswerOf(answers, i))
    requires rest == LoopEvents(plan, byKey, after, i + 1, answers) && EndsComplete(rest, |plan.steps|)
    ensures EndsComplete(LoopEvents(plan, byKey, run, i, answers), |plan.steps|)
  {}

  /** The steps from i on that have not succeeded, in order. */
  function Unfinished(steps: seq<StepRun>, i: nat): seq<nat>
    decreases |steps| - i
  {
    if i >= |steps| then [] else (if steps[i].status == Succeeded then [] else [i]) + Unfinished(steps, i + 1)
  }

  lemma {:induction false} UnfinishedLooksAhead(a: seq<StepRun>, b: seq<StepRun>, i: nat)
    requires |a| == |b| && forall k :: i <= k < |a| ==> a[k] == b[k]
    ensures Unfinished(a, i) == Unfinished(b, i)
    decreases |a| - i
  {
    if i < |a| {
      UnfinishedLooksAhead(a, b, i + 1);
      assert a[i].status == b[i].status;
    }
  }

  lemma {:induction false} UnfinishedIsMissing(run: Snapshot, i: nat)
    ensures Unfinished(run.steps, i) == Missing(Done(run), i, |run.steps|)
    decreases |run.steps| - i
  {
    if i < |run.steps| {
      UnfinishedIsMissing(run, i + 1);
      assert i in Done(run) <==> run.steps[i].status == Succeeded;
    }
  }

  lemma {:induction false} LoopImportsMissing(plan: Plan, byKey: map<FileKey, BundleFile>, run: Snapshot, i: nat,
                                              answers: Answers)
    requires |run.steps| == |plan.steps| && NoFailure(answers) && i <= |plan.steps|
    ensures ImportedSteps(LoopEvents(plan, byKey, run, i, answers)) == Unfinished(run.steps, i)
    decreases |plan.steps| - i
  {
    if i >= |plan.steps| {
      FinishImportsNothing(run);
    } else if run.steps[i].status == Succeeded {
      LoopImportsMissing(plan, byKey, run, i + 1, answers);
      SkippingImportsNothing(plan, byKey, run, i, answers);
    } else {
      var after := Imports(Marked(run, i), i, AnswerOf(answers, i));
      ImportKeepsCount(run, i, AnswerOf(answers, i));
      LoopImportsMissing(plan, byKey, after, i + 1, answers);
      TakingImports(plan, byKey, run, i, answers, after, LoopEvents(plan, byKey, after, i + 1, answers));
    }
  }

  lemma FinishImportsNothing(run: Snapshot)
    ensures ImportedSteps([Saved(Finished(run))]) == []
  {
    assert [Saved(Finished(run))][1..] == [];
  }

  lemma SkippingImportsNothing(plan: Plan, byKey: map<FileKey, BundleFile>, run: Snapshot, i: nat, answers: Answers)
    requires i < |plan.steps| == |run.steps| && run.steps[i].status == Succeeded
    ensures LoopEvents(plan, byKey, run, i, answers) == LoopEvents(plan, byKey, run, i + 1, answers)
    ensures Unfinished(run.steps, i) == Unfinished(run.steps, i + 1)
  {}

  lemma TakingImports(plan: Plan, byKey: map<FileKey, BundleFile>, run: Snapshot, i: nat, answers: Answers,
                      after: Snapshot, rest: seq<Event>)
    requires i < |plan.steps| == |run.steps| == |after.steps| && run.steps[i].status != Succeeded
    requires AnswerOf(answers, i).Success? && after == Imports(Marked(run, i), i, AnswerOf(answers, i))
    requires rest == LoopEvents(plan, byKey, after, i + 1, answers)
    requires ImportedSteps(rest) == Unfinished(after.steps, i + 1)
    ensures ImportedSteps(LoopEvents(plan, byKey, run, i, answers)) == Unfinished(run.steps, i)
  {
    TakingImportsOne(plan, byKey, run, i, answers, after, rest);
    UnfinishedTaken(run, i, AnswerOf(answers, i), after);
  }

  lemma TakingImportsOne(plan: Plan, byKey: map<FileKey, BundleFile>, run: Snapshot, i: nat, answers: Answers,
                         after: Snapshot, rest: seq<Event>)
    requires i < |plan.steps| == |run.steps| == |after.steps| && run.steps[i].status != Succeeded
    requires AnswerOf(answers, i).Success? && after == Imports(Marked(run, i), i, AnswerOf(answers, i))
    requires rest == LoopEvents(plan, byKey, after, i + 1, answers)
    ensures ImportedSteps(LoopEvents(plan, byKey, run, i, answers)) == [i] + ImportedSteps(rest)
  {
    StepImports(Marked(run, i), i, FileFor(byKey, plan.steps[i]), true, after, rest);
  }

  lemma UnfinishedTaken(run: Snapshot, i: nat, answer: ImportResult, after: Snapshot)
    requires i < |run.steps| && run.steps[i].status != Succeeded && after == Imports(Marked(run, i), i, answer)
    ensures Unfinished(run.steps, i) == [i] + Unfinished(after.steps, i + 1)
  {
    ImportChangesOne(run, i, answer);
    UnfinishedLooksAhead(after.steps, run.steps, i + 1);
  }

  /** A confirmed attempt that nothing interrupts and no import refuses imports exactly the steps not done yet, in
      plan order, and leaves a snapshot in which every step succeeded. */
  lemma {:induction false} ResumeFinishesTheRest(plan: Plan, files: seq<BundleFile>, from: Option<Snapshot>,
                                                 answers: Answers, cut: nat)
    requires WellSummarized(plan) && Numbered(plan) && Resumable(plan, from) && plan.ready && NoFailure(answers)
    ensures var events := AttemptEvents(plan, files, from, Attempt(true, answers, cut));
      && ImportedSteps(events) == Missing(DoneBefore(from), 0, |plan.steps|)
      && EndsComplete(events, |plan.steps|)
  {
    var run := NewResumableRun(plan, true, from);
    ResumeTakesOver(plan, true, from, run);
    LoopEndsComplete(plan, Indexed(files), run, 0, answers);
    LoopImportsMissing(plan, Indexed(files), run, 0, answers);
    UnfinishedIsMissing(run, 0);
    var rest := LoopEvents(plan, Indexed(files), run, 0, answers);
    assert ([Saved(run)] + rest)[1..] == rest;
  }
}
