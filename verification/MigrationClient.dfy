// The command-line client's execution: the same steps as the server's, without a store in between.
module MigrationClient {
  import opened Options
  import opened CutoverRun
  import opened BundleFiles
  import opened MigrationServer
  import opened MigrationResume

  /** An import carried out: which step, with which file, and whether it succeeded. */
  datatype Import = Import(step: nat, file: BundleFile, ok: bool)

  datatype Ending = PlanNotReady | Unconfirmed | FileNotFound(missing: nat) | ImportRefused(refused: nat) | AllDone

  datatype Outcome = Outcome(imports: seq<Import>, run: Snapshot, ending: Ending)

  function HintedStep(step: StepRun): StepRun {
    if step.status == Planned then step.(message := "Pass --confirm to run this import.") else step
  }

  function HintedSteps(steps: seq<StepRun>): (hinted: seq<StepRun>)
    ensures |hinted| == |steps| && forall k :: 0 <= k < |steps| ==> hinted[k] == HintedStep(steps[k])
  {
    if steps == [] then [] else HintedSteps(steps[..|steps| - 1]) + [HintedStep(steps[|steps| - 1])]
  }

  function ClientRun(plan: Plan, confirm: bool, from: Option<Snapshot>): Snapshot {
    var run := NewResumableRun(plan, confirm, from);
    if confirm then run else Refreshed(run.(steps := HintedSteps(run.steps)))
  }

  function SkippedAt(run: Snapshot, i: nat): Snapshot
    requires i < |run.steps|
  {
    var step := run.steps[i].(status := Skipped, message := "Step is not ready to execute.");
    Refreshed(run.(steps := run.steps[i := step]))
  }

  function MissingAt(run: Snapshot, i: nat): Snapshot {
    Completed(run, i, Failed, "Import failed.", "migration bundle file not found", "")
  }

  predicate Has(byKey: map<FileKey, BundleFile>, step: PlanStep) {
    KeyFor(step.kind, step.fileName) in byKey
  }

  function Before(imports: seq<Import>, rest: Outcome): Outcome {
    rest.(imports := imports + rest.imports)
  }

  /** Everything the client does from step i on. */
  function ClientLoop(plan: Plan, byKey: map<FileKey, BundleFile>, run: Snapshot, i: nat, answers: Answers): Outcome
    requires |run.steps| == |plan.steps|
    decreases |plan.steps| - i
  {
    if i >= |plan.steps| then Outcome([], Finished(run), AllDone)
    else if run.steps[i].status == Succeeded then ClientLoop(plan, byKey, run, i + 1, answers)
    else if plan.steps[i].status != StepReady then ClientLoop(plan, byKey, SkippedAt(run, i), i + 1, answers)
    else if !Has(byKey, plan.steps[i]) then Outcome([], MissingAt(run, i), FileNotFound(i))
    else
      var answer := AnswerOf(answers, i);
      var one := [Import(i, FileFor(byKey, plan.steps[i]), answer.Success?)];
      var after := Imports(Marked(run, i), i, answer);
      if answer.Failure? then Outcome(one, after, ImportRefused(i))
      else
        Before(one, ClientLoop(plan, byKey, after, i + 1, answers))
  }

  function Client(plan: Plan, files: seq<BundleFile>, from: Option<Snapshot>, confirm: bool,
                  answers: Answers): Outcome
  {
    var run := ClientRun(plan, confirm, from);
    if !plan.ready then Outcome([], run, PlanNotReady)
    else if !confirm then Outcome([], run, Unconfirmed)
    else ClientLoop(plan, Indexed(files), run, 0, answers)
  }

  // ----- The client as a program -----

  method NewClientRun(plan: Plan, confirm: bool, from: Option<Snapshot>) returns (run: ExecutionRun)
    ensures fresh(run) && run.View() == ClientRun(plan, confirm, from)
  {
    run := new ExecutionRun(plan, confirm, from);
    if !confirm {
      HintPlanned(run);
      run.Refresh();
    }
  }

  method HintPlanned(run: ExecutionRun)
    modifies run`steps
    ensures run.steps == HintedSteps(old(run.steps))
  {
    ghost var before := run.steps;
    for k := 0 to |run.steps|
      invariant |run.steps| == |before|
      invariant forall j :: 0 <= j < |before| ==> run.steps[j] == if j < k then HintedStep(before[j]) else before[j]
    {
      if run.steps[k].status == Planned {
        run.steps := run.steps[k := run.steps[k].(message := "Pass --confirm to run this import.")];
      }
    }
  }

  /** One step of the loop: what it imports, and how it ends the execution, if it does. */
  method TakeStep(run: ExecutionRun, plan: Plan, byKey: map<FileKey, BundleFile>, i: nat, answers: Answers)
    returns (imports: seq<Import>, stop: Option<Ending>)
    requires i < |plan.steps| == |run.steps|
    modifies run
    ensures |run.steps| == old(|run.steps|)
    ensures ClientLoop(plan, byKey, old(run.View()), i, answers)
         == Before(imports, if stop.Some? then Outcome([], run.View(), stop.value)
                            else ClientLoop(plan, byKey, run.View(), i + 1, answers))
  {
    if run.steps[i].status == Succeeded {
      return [], None;
    }
    if plan.steps[i].status != StepReady {
      run.steps := run.steps[i := run.steps[i].(status := Skipped, message := "Step is not ready to execute.")];
      run.Refresh();
      return [], None;
    }
    if !Has(byKey, plan.steps[i]) {
      run.Complete(i, Failed, "Import failed.", "migration bundle file not found", "");
      return [], Some(FileNotFound(i));
    }
    var answer := AnswerOf(answers, i);
    ImportStep(run, i, answer);
    imports := [Import(i, byKey[KeyFor(plan.steps[i].kind, plan.steps[i].fileName)], answer.Success?)];
    stop := if answer.Failure? then Some(ImportRefused(i)) else None;
  }

  lemma BeforeTwice(a: seq<Import>, b: seq<Import>, rest: Outcome)
    ensures Before(a, Before(b, rest)) == Before(a + b, rest)
    ensures rest.imports == [] ==> Before(a + b, rest) == Outcome(a + b, rest.run, rest.ending)
  {}

  method ImportStep(run: ExecutionRun, i: nat, answer: ImportResult)
    modifies run
    ensures run.View() == Imports(Marked(old(run.View()), i), i, answer)
  {
    run.MarkRunning(i);
    EndStep(run, i, answer);
  }

  method RunSteps(run: ExecutionRun, plan: Plan, byKey: map<FileKey, BundleFile>, answers: Answers)
    returns (imports: seq<Import>, ending: Ending)
    requires |plan.steps| == |run.steps|
    modifies run
    ensures Outcome(imports, run.View(), ending) == ClientLoop(plan, byKey, old(run.View()), 0, answers)
  {
    imports := [];
    for i := 0 to |plan.steps|
      invariant |run.steps| == |plan.steps|
      invariant ClientLoop(plan, byKey, old(run.View()), 0, answers)
             == Before(imports, ClientLoop(plan, byKey, run.View(), i, answers))
    {
      var one, stop := TakeStep(run, plan, byKey, i, answers);
      BeforeTwice(imports, one, if stop.Some? then Outcome([], run.View(), stop.value)
                                else ClientLoop(plan, byKey, run.View(), i + 1, answers));
      imports := imports + one;
      if stop.Some? {
        return imports, stop.value;
      }
    }
    BeforeTwice(imports, [], ClientLoop(plan, byKey, run.View(), |plan.steps|, answers));
    assert imports + [] == imports;
    run.summary := run.summary.(status := AllSucceeded);
    run.Refresh();
    return imports, AllDone;
  }

  method ExecuteMigrationRun(plan: Plan, files: seq<BundleFile>, from: Option<Snapshot>, confirm: bool,
                             answers: Answers)
    returns (imports: seq<Import>, run: ExecutionRun, ending: Ending)
    ensures fresh(run) && Outcome(imports, run.View(), ending) == Client(plan, files, from, confirm, answers)
  {
    run := NewClientRun(plan, confirm, from);
    if !plan.ready {
      return [], run, PlanNotReady;
    }
    if !confirm {
      return [], run, Unconfirmed;
    }
    var byKey := IndexFiles(files);
    imports, ending := RunSteps(run, plan, byKey, answers);
  }

  // ----- Client and server -----

  function ImportsIn(events: seq<Event>): seq<Import> {
    if events == [] then []
    else match events[0]
      case Saved(_) => ImportsIn(events[1..])
      case Imported(step, file, ok) => [Import(step, file, ok)] + ImportsIn(events[1..])
  }

  lemma ImportsAfterStep(marked: Snapshot, i: nat, file: BundleFile, ok: bool, after: Snapshot, rest: seq<Event>)
    ensures var events := [Saved(marked), Imported(i, file, ok), Saved(after)] + rest;
      ImportsIn(events) == [Import(i, file, ok)] + ImportsIn(rest)
  {
    ImportsInNext(Saved(marked), [Imported(i, file, ok), Saved(after)] + rest);
    ImportsInNext(Imported(i, file, ok), [Saved(after)] + rest);
    ImportsInNext(Saved(after), rest);
    var events := [Saved(marked), Imported(i, file, ok), Saved(after)] + rest;
    assert events == [Saved(marked)] + ([Imported(i, file, ok), Saved(after)] + rest);
    assert [Imported(i, file, ok), Saved(after)] + rest == [Imported(i, file, ok)] + ([Saved(after)] + rest);
  }

  lemma ImportsInNext(event: Event, rest: seq<Event>)
    ensures ImportsIn([event] + rest)
         == (if event.Imported? then [Import(event.step, event.file, event.ok)] else []) + ImportsIn(rest)
  {
    assert ([event] + rest)[1..] == rest;
  }

  predicate AllReady(plan: Plan) {
    forall i :: 0 <= i < |plan.steps| ==> plan.steps[i].status == StepReady
  }

  /** The same imports in the same order, the same answers, and the same run at the end. */
  predicate SameExecution(client: Outcome, events: seq<Event>) {
    client.imports == ImportsIn(events) && events != [] && events[|events| - 1] == Saved(client.run)
  }

  /** The server has the same imports and then one more, with an empty file, where the client stops. */
  predicate ServerGoesOn(client: Outcome, events: seq<Event>) {
    && client.ending.FileNotFound?
    && |ImportsIn(events)| > |client.imports|
    && ImportsIn(events)[..|client.imports|] == client.imports
    && ImportsIn(events)[|client.imports|].step == client.ending.missing
    && ImportsIn(events)[|client.imports|].file == NO_FILE
  }

  predicate Agree(client: Outcome, events: seq<Event>) {
    if client.ending.FileNotFound? then ServerGoesOn(client, events) else SameExecution(client, events)
  }

  lemma SavedFirst(client: Outcome, run: Snapshot, rest: seq<Event>)
    requires Agree(client, rest)
    ensures Agree(client, [Saved(run)] + rest)
  {
    ImportsInNext(Saved(run), rest);
  }

  lemma {:induction false} LoopsAgree(plan: Plan, byKey: map<FileKey, BundleFile>, run: Snapshot, i: nat,
                                      answers: Answers)
    requires |run.steps| == |plan.steps| && AllReady(plan)
    ensures Agree(ClientLoop(plan, byKey, run, i, answers), LoopEvents(plan, byKey, run, i, answers))
    decreases |plan.steps| - i
  {
    if i >= |plan.steps| {
      assert [Saved(Finished(run))][1..] == [];
    } else if run.steps[i].status == Succeeded {
      LoopsAgree(plan, byKey, run, i + 1, answers);
    } else {
      var after := Imports(Marked(run, i), i, AnswerOf(answers, i));
      ImportChangesOne(run, i, AnswerOf(answers, i));
      LoopsAgree(plan, byKey, after, i + 1, answers);
      TakingAgrees(plan, byKey, run, i, answers, after, ClientLoop(plan, byKey, after, i + 1, answers),
                   LoopEvents(plan, byKey, after, i + 1, answers));
    }
  }

  lemma TakingAgrees(plan: Plan, byKey: map<FileKey, BundleFile>, run: Snapshot, i: nat, answers: Answers,
                     after: Snapshot, client: Outcome, rest: seq<Event>)
    requires i < |plan.steps| == |run.steps| == |after.steps| && plan.steps[i].status == StepReady
    requires run.steps[i].status != Succeeded && after == Imports(Marked(run, i), i, AnswerOf(answers, i))
    requires client == ClientLoop(plan, byKey, after, i + 1, answers)
    requires rest == LoopEvents(plan, byKey, after, i + 1, answers) && Agree(client, rest)
    ensures Agree(ClientLoop(plan, byKey, run, i, answers), LoopEvents(plan, byKey, run, i, answers))
  {
    var answer := AnswerOf(answers, i);
    ImportsAfterStep(Marked(run, i), i, FileFor(byKey, plan.steps[i]), answer.Success?, after,
                     if answer.Success? then rest else []);
  }

  /** On a ready, confirmed plan the client's execution and an uninterrupted server attempt are the same, unless the
      client misses a file; then the server goes on to import an empty file in its place. */
  lemma {:induction false} ClientAgreesWithServer(plan: Plan, files: seq<BundleFile>, from: Option<Snapshot>,
                                                  answers: Answers, cut: nat)
    requires WellSummarized(plan) && plan.ready
    ensures Agree(Client(plan, files, from, true, answers),
                  AttemptEvents(plan, files, from, Attempt(true, answers, cut)))
  {
    var run := ClientRun(plan, true, from);
    LoopsAgree(plan, Indexed(files), run, 0, answers);
    SavedFirst(ClientLoop(plan, Indexed(files), run, 0, answers), run,
               LoopEvents(plan, Indexed(files), run, 0, answers));
  }

  // ----- The files that steps find -----

  predicate MadeFrom(step: PlanStep, file: BundleFile) {
    step.kind == file.kind && step.fileName == file.fileName
  }

  /** Every step of the plan was made from one of the files. */
  predicate PlannedOver(plan: Plan, files: seq<BundleFile>) {
    forall i :: 0 <= i < |plan.steps| ==> MadeFromOneOf(plan.steps[i], files)
  }

  predicate MadeFromOneOf(step: PlanStep, files: seq<BundleFile>) {
    exists j :: 0 <= j < |files| && MadeFrom(step, files[j])
  }

  lemma PlannedStepsFindFiles(plan: Plan, files: seq<BundleFile>, i: nat)
    requires PlannedOver(plan, files) && i < |plan.steps|
    ensures Has(Indexed(files), plan.steps[i])
  {
    assert MadeFromOneOf(plan.steps[i], files);
    var j :| 0 <= j < |files| && MadeFrom(plan.steps[i], files[j]);
    var last := LookupFindsLast(files, j);
  }

  /** Step k is still to be imported, and its file is not there. */
  predicate Misses(plan: Plan, byKey: map<FileKey, BundleFile>, run: Snapshot, k: nat)
    requires |run.steps| == |plan.steps|
  {
    k < |plan.steps| && run.steps[k].status != Succeeded && !Has(byKey, plan.steps[k])
  }

  predicate EndsAtMissing(plan: Plan, byKey: map<FileKey, BundleFile>, run: Snapshot, i: nat, ending: Ending)
    requires |run.steps| == |plan.steps|
  {
    ending.FileNotFound? ==> i <= ending.missing && Misses(plan, byKey, run, ending.missing)
  }

  /** A file that the client does not find is not there, and its step is still to be imported. */
  lemma {:induction false} MissingFileIsMissing(plan: Plan, byKey: map<FileKey, BundleFile>, run: Snapshot, i: nat,
                                                answers: Answers)
    requires |run.steps| == |plan.steps| && AllReady(plan)
    ensures EndsAtMissing(plan, byKey, run, i, ClientLoop(plan, byKey, run, i, answers).ending)
    decreases |plan.steps| - i
  {
    if i < |plan.steps| {
      if run.steps[i].status == Succeeded {
        MissingFileIsMissing(plan, byKey, run, i + 1, answers);
      } else if Has(byKey, plan.steps[i]) && AnswerOf(answers, i).Success? {
        var after := Imports(Marked(run, i), i, AnswerOf(answers, i));
        ImportChangesOne(run, i, AnswerOf(answers, i));
        MissingFileIsMissing(plan, byKey, after, i + 1, answers);
        EndsLater(plan, byKey, run, after, i, ClientLoop(plan, byKey, after, i + 1, answers).ending);
      }
    }
  }

  lemma EndsLater(plan: Plan, byKey: map<FileKey, BundleFile>, run: Snapshot, after: Snapshot, i: nat, ending: Ending)
    requires |run.steps| == |after.steps| == |plan.steps|
    requires forall k :: 0 <= k < |run.steps| && k != i ==> after.steps[k] == run.steps[k]
    requires EndsAtMissing(plan, byKey, after, i + 1, ending)
    ensures EndsAtMissing(plan, byKey, run, i, ending)
  {}

  /** When all imports succeed, the client gets to the first step whose file is not there. */
  lemma {:induction false} MissingFileIsMet(plan: Plan, byKey: map<FileKey, BundleFile>, run: Snapshot, i: nat, k: nat)
    requires |run.steps| == |plan.steps| && AllReady(plan) && i <= k && Misses(plan, byKey, run, k)
    ensures ClientLoop(plan, byKey, run, i, map[]).ending.FileNotFound?
    decreases |plan.steps| - i
  {
    if run.steps[i].status == Succeeded {
      MissingFileIsMet(plan, byKey, run, i + 1, k);
    } else if Has(byKey, plan.steps[i]) {
      ImportChangesOne(run, i, AnswerOf(map[], i));
      MissingFileIsMet(plan, byKey, Imports(Marked(run, i), i, AnswerOf(map[], i)), i + 1, k);
    }
  }

  /** Every step that is still to be imported has its file. */
  ghost predicate FilesPresent(plan: Plan, files: seq<BundleFile>, from: Option<Snapshot>) {
    forall k: nat :: k < |plan.steps| && k !in DoneBefore(from) ==> Has(Indexed(files), plan.steps[k])
  }

  lemma MissesIffAbsent(plan: Plan, files: seq<BundleFile>, from: Option<Snapshot>, run: Snapshot, k: nat)
    requires WellSummarized(plan) && Numbered(plan) && Resumable(plan, from)
    requires run == ClientRun(plan, true, from)
    ensures |run.steps| == |plan.steps|
    ensures Misses(plan, Indexed(files), run, k)
       <==> k < |plan.steps| && k !in DoneBefore(from) && !Has(Indexed(files), plan.steps[k])
  {
    ResumeTakesOver(plan, true, from, run);
    assert k in Done(run) <==> k in DoneBefore(from);
  }

  lemma MissingFileTellsApart(client: Outcome, events: seq<Event>)
    requires Agree(client, events)
    ensures SameExecution(client, events) <==> !client.ending.FileNotFound?
  {}

  /** On a ready, confirmed plan, client and server do the same, whatever the imports answer, exactly when every step
      that is still to be imported has its file. */
  lemma ClientAgreesExactlyWhen(plan: Plan, files: seq<BundleFile>, from: Option<Snapshot>, cut: nat)
    requires WellSummarized(plan) && Numbered(plan) && Resumable(plan, from) && plan.ready
    ensures (forall answers: Answers ::
               SameExecution(Client(plan, files, from, true, answers),
                             AttemptEvents(plan, files, from, Attempt(true, answers, cut))))
       <==> FilesPresent(plan, files, from)
  {
    var run := ClientRun(plan, true, from);
    if FilesPresent(plan, files, from) {
      forall answers: Answers
        ensures SameExecution(Client(plan, files, from, true, answers),
                              AttemptEvents(plan, files, from, Attempt(true, answers, cut)))
      {
        PresentFilesAgree(plan, files, from, answers, cut);
      }
    } else {
      var k: nat :| k < |plan.steps| && k !in DoneBefore(from) && !Has(Indexed(files), plan.steps[k]);
      AbsentFileDisagrees(plan, files, from, cut, k);
    }
  }

  lemma PresentFilesAgree(plan: Plan, files: seq<BundleFile>, from: Option<Snapshot>, answers: Answers, cut: nat)
    requires WellSummarized(plan) && Numbered(plan) && Resumable(plan, from) && plan.ready
    requires FilesPresent(plan, files, from)
    ensures SameExecution(Client(plan, files, from, true, answers),
                          AttemptEvents(plan, files, from, Attempt(true, answers, cut)))
  {
    var run := ClientRun(plan, true, from);
    var client := Client(plan, files, from, true, answers);
    ClientAgreesWithServer(plan, files, from, answers, cut);
    MissingFileTellsApart(client, AttemptEvents(plan, files, from, Attempt(true, answers, cut)));
    MissesIffAbsent(plan, files, from, run, 0);
    MissingFileIsMissing(plan, Indexed(files), run, 0, answers);
    if client.ending.FileNotFound? {
      MissesIffAbsent(plan, files, from, run, client.ending.missing);
      assert false;
    }
  }

  lemma AbsentFileDisagrees(plan: Plan, files: seq<BundleFile>, from: Option<Snapshot>, cut: nat, k: nat)
    requires WellSummarized(plan) && Numbered(plan) && Resumable(plan, from) && plan.ready
    requires k < |plan.steps| && k !in DoneBefore(from) && !Has(Indexed(files), plan.steps[k])
    ensures !SameExecution(Client(plan, files, from, true, map[]),
                           AttemptEvents(plan, files, from, Attempt(true, map[], cut)))
  {
    var run := ClientRun(plan, true, from);
    MissesIffAbsent(plan, files, from, run, k);
    MissingFileIsMet(plan, Indexed(files), run, 0, k);
    ClientAgreesWithServer(plan, files, from, map[], cut);
    MissingFileTellsApart(Client(plan, files, from, true, map[]),
                          AttemptEvents(plan, files, from, Attempt(true, map[], cut)));
  }

  /** For a plan made from the files it is executed with, client and server do the same. */
  lemma {:induction false} SameExecutionOfOwnPlan(plan: Plan, files: seq<BundleFile>, from: Option<Snapshot>,
                                                  answers: Answers, cut: nat)
    requires WellSummarized(plan) && plan.ready && PlannedOver(plan, files)
    ensures SameExecution(Client(plan, files, from, true, answers),
                          AttemptEvents(plan, files, from, Attempt(true, answers, cut)))
  {
    MissingFileIsMissing(plan, Indexed(files), ClientRun(plan, true, from), 0, answers);
    var ending := Client(plan, files, from, true, answers).ending;
    if ending.FileNotFound? {
      PlannedStepsFindFiles(plan, files, ending.missing);
      assert false;
    }
    ClientAgreesWithServer(plan, files, from, answers, cut);
  }

  /** When no two files share a key, every step is executed with the very file it was planned from. */
  lemma {:induction false} StepsFindTheirOwnFile(plan: Plan, files: seq<BundleFile>, i: nat, j: nat)
    requires DistinctKeys(files) && i < |plan.steps| && j < |files| && MadeFrom(plan.steps[i], files[j])
    ensures FileFor(Indexed(files), plan.steps[i]) == files[j]
  {
    var last := LookupFindsLast(files, j);
    assert KeyOfFile(files[j]) == KeyFor(plan.steps[i].kind, plan.steps[i].fileName);
  }
}
