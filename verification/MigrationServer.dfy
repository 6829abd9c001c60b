// The server's migration execution: a snapshot is saved before and after every import, so that an
// interrupted execution can be resumed from the last one saved.
module MigrationServer {
  import opened Options
  import opened CutoverRun
  import opened BundleFiles

  /** What outlives the process: snapshots in the store, and imports carried out. */
  datatype Event = Saved(run: Snapshot) | Imported(step: nat, file: BundleFile, ok: bool)

  const NO_FILE := BundleFile("", "", "")

  /** A file that the bundle does not hold reaches the importer as an empty one. */
  function FileFor(byKey: map<FileKey, BundleFile>, step: PlanStep): BundleFile {
    var key := KeyFor(step.kind, step.fileName);
    if key in byKey then byKey[key] else NO_FILE
  }

  /** What the importer answers: a response, or an error text. */
  type ImportResult = Result<string, string>

  /** The answers of one attempt, by step; an import with no answer listed succeeds with an empty response. */
  type Answers = map<nat, ImportResult>

  function AnswerOf(answers: Answers, i: nat): ImportResult {
    if i in answers then answers[i] else Success("")
  }

  function Imports(run: Snapshot, i: nat, answer: ImportResult): Snapshot {
    match answer
    case Success(response) => Completed(run, i, Succeeded, "Import completed.", "", response)
    case Failure(error) => Completed(run, i, Failed, "Import failed.", error, "")
  }

  function Finished(run: Snapshot): Snapshot {
    Refreshed(run.(summary := run.summary.(status := AllSucceeded)))
  }

  lemma MarkingChangesOne(run: Snapshot, i: nat)
    requires i < |run.steps|
    ensures |Marked(run, i).steps| == |run.steps| && Marked(run, i).steps[i].status == Running
    ensures forall k :: 0 <= k < |run.steps| && k != i ==> Marked(run, i).steps[k] == run.steps[k]
  {}

  lemma ImportKeepsCount(run: Snapshot, i: nat, answer: ImportResult)
    ensures |Imports(Marked(run, i), i, answer).steps| == |run.steps|
  {}

  lemma ImportChangesOne(run: Snapshot, i: nat, answer: ImportResult)
    ensures |Imports(Marked(run, i), i, answer).steps| == |run.steps|
    ensures i < |run.steps| ==> (Imports(Marked(run, i), i, answer).steps[i].status == Succeeded <==> answer.Success?)
    ensures forall k :: 0 <= k < |run.steps| && k != i ==> Imports(Marked(run, i), i, answer).steps[k] == run.steps[k]
  {}

  /** What carrying out step i does: it is saved as running, imported, and saved with its result. */
  function StepEvents(plan: Plan, byKey: map<FileKey, BundleFile>, run: Snapshot, i: nat, answer: ImportResult)
    : seq<Event>
    requires i < |plan.steps|
  {
    [Saved(Marked(run, i)), Imported(i, FileFor(byKey, plan.steps[i]), answer.Success?),
     Saved(Imports(Marked(run, i), i, answer))]
  }

  /** Everything the loop would do from step i on, if nothing interrupted it. */
  function LoopEvents(plan: Plan, byKey: map<FileKey, BundleFile>, run: Snapshot, i: nat, answers: Answers): seq<Event>
    requires |run.steps| == |plan.steps|
    decreases |plan.steps| - i
  {
    if i >= |plan.steps| then [Saved(Finished(run))]
    else if run.steps[i].status == Succeeded then LoopEvents(plan, byKey, run, i + 1, answers)
    else
      StepEvents(plan, byKey, run, i, AnswerOf(answers, i))
      + if AnswerOf(answers, i).Failure? then []
        else LoopEvents(plan, byKey, Imports(Marked(run, i), i, AnswerOf(answers, i)), i + 1, answers)
  }

  datatype Attempt = Attempt(confirm: bool, answers: Answers, cut: nat)

  /** What a request does after it has saved its run. */
  function RestEvents(plan: Plan, files: seq<BundleFile>, run: Snapshot, confirm: bool, answers: Answers): seq<Event>
    requires |run.steps| == |plan.steps|
  {
    if !confirm || !plan.ready then [] else LoopEvents(plan, Indexed(files), run, 0, answers)
  }

  /** Everything one request would do, if nothing interrupted it. */
  function AttemptEvents(plan: Plan, files: seq<BundleFile>, from: Option<Snapshot>, attempt: Attempt): seq<Event> {
    var run := NewResumableRun(plan, attempt.confirm, from);
    [Saved(run)] + RestEvents(plan, files, run, attempt.confirm, attempt.answers)
  }

  function UpTo(events: seq<Event>, cut: nat): seq<Event> {
    if cut < |events| then events[..cut] else events
  }

  datatype Response =
    | Interrupted
    | Confirmable(run: Snapshot)
    | NotReady(run: Snapshot)
    | ImportFailed(run: Snapshot)
    | Executed(run: Snapshot)

  /** Some step from i on has not succeeded and its import is refused. */
  predicate Refuses(steps: seq<StepRun>, answers: Answers, i: nat)
    decreases |steps| - i
  {
    i < |steps| && ((steps[i].status != Succeeded && AnswerOf(answers, i).Failure?) || Refuses(steps, answers, i + 1))
  }

  lemma {:induction false} RefusesLooksAhead(a: seq<StepRun>, b: seq<StepRun>, answers: Answers, i: nat)
    requires |a| == |b| && forall k :: i <= k < |a| ==> a[k] == b[k]
    ensures Refuses(a, answers, i) == Refuses(b, answers, i)
    decreases |a| - i
  {
    if i < |a| {
      RefusesLooksAhead(a, b, answers, i + 1);
      assert a[i].status == b[i].status;
    }
  }

  /** The answer to a request whose run is saved and taken up, when n events would record all the rest of it. */
  predicate Answered(response: Response, refused: bool, n: nat, budget: nat) {
    if budget < n then response.Interrupted? else if refused then response.ImportFailed? else response.Executed?
  }

  predicate LastEvent(events: seq<Event>, event: Event) {
    events != [] && events[|events| - 1] == event
  }

  /** The store and the importer, as far as they outlive the process. They take `budget` more calls; after that the
      process is gone, or, which looks the same from outside, the store refuses the snapshot. */
  class Journal {
    var events: seq<Event>
    var budget: nat

    constructor (events: seq<Event>, budget: nat)
      ensures this.events == events && this.budget == budget
    {
      this.events := events;
      this.budget := budget;
    }

    method Record(event: Event) returns (alive: bool)
      modifies this
      ensures alive == (old(budget) > 0)
      ensures events == old(events) + UpTo([event], old(budget))
      ensures budget == if alive then old(budget) - 1 else 0
      ensures alive ==> LastEvent(events, event)
    {
      if budget == 0 {
        return false;
      }
      events, budget := events + [event], budget - 1;
      return true;
    }
  }

  lemma UpToSplit(before: seq<Event>, a: seq<Event>, b: seq<Event>, n: nat)
    ensures before + UpTo(a + b, n) == before + UpTo(a, n) + UpTo(b, if n < |a| then 0 else n - |a|)
    ensures a + [] == a
  {
    if n < |a| {
      assert (a + b)[..n] == a[..n];
    } else if n - |a| < |b| {
      assert (a + b)[..n] == a + b[..n - |a|];
    }
  }

  lemma TakeStep(before: seq<Event>, plan: Plan, byKey: map<FileKey, BundleFile>, run: Snapshot, i: nat,
                 answers: Answers, budget: nat)
    requires i < |plan.steps| == |run.steps| && run.steps[i].status != Succeeded
    ensures var step, answer := StepEvents(plan, byKey, run, i, AnswerOf(answers, i)), AnswerOf(answers, i);
      before + UpTo(LoopEvents(plan, byKey, run, i, answers), budget)
      == if budget < 3 || answer.Failure? then before + UpTo(step, budget)
         else before + UpTo(step, budget)
              + UpTo(LoopEvents(plan, byKey, Imports(Marked(run, i), i, answer), i + 1, answers), budget - 3)
    ensures var answer := AnswerOf(answers, i);
      |LoopEvents(plan, byKey, run, i, answers)|
      == if answer.Failure? then 3
         else 3 + |LoopEvents(plan, byKey, Imports(Marked(run, i), i, answer), i + 1, answers)|
  {
    var answer := AnswerOf(answers, i);
    var rest := if answer.Failure? then []
                else LoopEvents(plan, byKey, Imports(Marked(run, i), i, answer), i + 1, answers);
    UpToSplit(before, StepEvents(plan, byKey, run, i, answer), rest, budget);
  }

  lemma TakeAccepted(run: Snapshot, i: nat, answers: Answers, after: Snapshot)
    requires i < |run.steps| && AnswerOf(answers, i).Success?
    requires after == Imports(Marked(run, i), i, AnswerOf(answers, i))
    ensures Refuses(run.steps, answers, i) == Refuses(after.steps, answers, i + 1)
  {
    ImportChangesOne(run, i, AnswerOf(answers, i));
    RefusesLooksAhead(run.steps, after.steps, answers, i + 1);
  }

  /** One request: it gets as far as the budget lets it, and is interrupted exactly when that is not all of it.
      Otherwise its answer shows the last snapshot saved, and the first thing in its way. */
  ghost predicate Executes(plan: Plan, run: Snapshot, all: seq<Event>, confirm: bool, answers: Answers, budget: nat,
                           before: seq<Event>, after: seq<Event>, response: Response)
  {
    && after == before + UpTo(all, budget)
    && (response.Interrupted? <==> budget < |all|)
    && (!response.Interrupted? ==>
          && LastEvent(after, Saved(response.run))
          && (response.Confirmable? <==> !confirm)
          && (response.NotReady? <==> confirm && !plan.ready)
          && (response.ImportFailed? <==> confirm && plan.ready && Refuses(run.steps, answers, 0)))
  }

  method ExecuteMigration(journal: Journal, plan: Plan, files: seq<BundleFile>, from: Option<Snapshot>,
                          confirm: bool, answers: Answers)
    returns (response: Response)
    modifies journal
    ensures Executes(plan, NewResumableRun(plan, confirm, from),
                     AttemptEvents(plan, files, from, Attempt(confirm, answers, old(journal.budget))),
                     confirm, answers, old(journal.budget), old(journal.events), journal.events, response)
  {
    var run := new ExecutionRun(plan, confirm, from);
    response := CarryOut(journal, run, plan, files, confirm, answers);
  }

  method CarryOut(journal: Journal, run: ExecutionRun, plan: Plan, files: seq<BundleFile>, confirm: bool,
                  answers: Answers)
    returns (response: Response)
    requires |run.steps| == |plan.steps|
    modifies journal, run
    ensures Executes(plan, old(run.View()),
                     [Saved(old(run.View()))] + RestEvents(plan, files, old(run.View()), confirm, answers),
                     confirm, answers, old(journal.budget), old(journal.events), journal.events, response)
  {
    ghost var rest := RestEvents(plan, files, run.View(), confirm, answers);
    UpToSplit(journal.events, [Saved(run.View())], rest, journal.budget);
    var saved := journal.Record(Saved(Snapshot(run.summary, run.steps)));
    if !saved {
      return Interrupted;
    }
    if !confirm {
      return Confirmable(Snapshot(run.summary, run.steps));
    }
    if !plan.ready {
      return NotReady(Snapshot(run.summary, run.steps));
    }
    var byKey := IndexFiles(files);
    response := RunSteps(journal, run, plan, byKey, answers);
  }

  method RunSteps(journal: Journal, run: ExecutionRun, plan: Plan, byKey: map<FileKey, BundleFile>, answers: Answers)
    returns (response: Response)
    requires |run.steps| == |plan.steps|
    modifies journal, run
    ensures journal.events == old(journal.events)
                            + UpTo(LoopEvents(plan, byKey, old(run.View()), 0, answers), old(journal.budget))
    ensures response != Interrupted ==> LastEvent(journal.events, Saved(response.run))
    ensures Answered(response, Refuses(old(run.steps), answers, 0),
                     |LoopEvents(plan, byKey, old(run.View()), 0, answers)|, old(journal.budget))
  {
    for i := 0 to |plan.steps|
      invariant |run.steps| == |plan.steps|
      invariant journal.events + UpTo(LoopEvents(plan, byKey, run.View(), i, answers), journal.budget)
             == old(journal.events) + UpTo(LoopEvents(plan, byKey, old(run.View()), 0, answers), old(journal.budget))
      invariant |LoopEvents(plan, byKey, run.View(), i, answers)| - journal.budget
             == |LoopEvents(plan, byKey, old(run.View()), 0, answers)| - old(journal.budget)
      invariant Refuses(run.steps, answers, i) == Refuses(old(run.steps), answers, 0)
    {
      var stop := NextStep(journal, run, plan, byKey, i, answers);
      if stop.Some? {
        return stop.value;
      }
    }
    run.summary := run.summary.(status := AllSucceeded);
    run.Refresh();
    var saved := journal.Record(Saved(Snapshot(run.summary, run.steps)));
    return if saved then Executed(Snapshot(run.summary, run.steps)) else Interrupted;
  }

  /** One turn of the loop: the response, if the attempt ends here. */
  method NextStep(journal: Journal, run: ExecutionRun, plan: Plan, byKey: map<FileKey, BundleFile>, i: nat,
                  answers: Answers)
    returns (stop: Option<Response>)
    requires i < |plan.steps| == |run.steps|
    modifies journal, run
    ensures |run.steps| == |plan.steps|
    ensures old(journal.events) + UpTo(LoopEvents(plan, byKey, old(run.View()), i, answers), old(journal.budget))
         == if stop.Some? then journal.events
            else journal.events + UpTo(LoopEvents(plan, byKey, run.View(), i + 1, answers), journal.budget)
    ensures stop.Some? && stop.value != Interrupted ==> LastEvent(journal.events, Saved(stop.value.run))
    ensures stop.Some? ==>
      Answered(stop.value, Refuses(old(run.steps), answers, i),
               |LoopEvents(plan, byKey, old(run.View()), i, answers)|, old(journal.budget))
    ensures stop.None? ==>
      && |LoopEvents(plan, byKey, run.View(), i + 1, answers)| - journal.budget
         == |LoopEvents(plan, byKey, old(run.View()), i, answers)| - old(journal.budget)
      && Refuses(run.steps, answers, i + 1) == Refuses(old(run.steps), answers, i)
  {
    if run.steps[i].status == Succeeded {
      return None;
    }
    TakeStep(journal.events, plan, byKey, run.View(), i, answers, journal.budget);
    var alive := RunStep(journal, run, plan, byKey, i, AnswerOf(answers, i));
    if !alive {
      return Some(Interrupted);
    }
    if AnswerOf(answers, i).Failure? {
      return Some(ImportFailed(Snapshot(run.summary, run.steps)));
    }
    TakeAccepted(old(run.View()), i, answers, run.View());
    return None;
  }

  method RunStep(journal: Journal, run: ExecutionRun, plan: Plan, byKey: map<FileKey, BundleFile>, i: nat,
                 answer: ImportResult)
    returns (alive: bool)
    requires i < |plan.steps| == |run.steps|
    modifies journal, run
    ensures journal.events == old(journal.events)
                            + UpTo(StepEvents(plan, byKey, old(run.View()), i, answer), old(journal.budget))
    ensures alive == (old(journal.budget) >= 3)
    ensures journal.budget == if old(journal.budget) < 3 then 0 else old(journal.budget) - 3
    ensures alive ==> LastEvent(journal.events, Saved(run.View()))
    ensures alive ==> run.View() == Imports(Marked(old(run.View()), i), i, answer)
    ensures |run.steps| == old(|run.steps|)
  {
    var step := plan.steps[i];
    var file := FileFor(byKey, step);
    run.MarkRunning(i);
    alive := journal.Record(Saved(Snapshot(run.summary, run.steps)));
    if !alive {
      return;
    }
    alive := journal.Record(Imported(i, file, answer.Success?));
    if !alive {
      return;
    }
    EndStep(run, i, answer);
    alive := journal.Record(Saved(Snapshot(run.summary, run.steps)));
  }

  method EndStep(run: ExecutionRun, i: nat, answer: ImportResult)
    modifies run
    ensures run.View() == Imports(old(run.View()), i, answer)
  {
    match answer {
      case Success(text) => run.Complete(i, Succeeded, "Import completed.", "", text);
      case Failure(error) => run.Complete(i, Failed, "Import failed.", error, "");
    }
  }
}
