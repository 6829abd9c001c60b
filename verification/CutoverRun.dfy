// A migration execution run: its steps, its summary, and the operations that change them in place.
module CutoverRun {
  import opened Options

  datatype BundleFile = BundleFile(kind: string, fileName: string, content: string)

  datatype PlanStatus = StepReady | NeedsContext | StepBlocked

  datatype PlanStep = PlanStep(stepNumber: int, kind: string, fileName: string, status: PlanStatus, message: string)

  datatype Plan = Plan(validationReady: bool, ready: bool, needsContextCount: nat, blockedCount: nat,
                       steps: seq<PlanStep>)

  datatype StepStatus = Planned | Running | Skipped | Succeeded | Failed

  datatype StepRun = StepRun(
    stepNumber: int, kind: string, fileName: string,
    status: StepStatus, message: string, error: string, response: string)

  datatype RunStatus = InProgress | NeedsConfirmation | Blocked | AllSucceeded | SomeFailed

  /** What a summary takes from the plan and the request. */
  datatype Context = Context(
    confirmed: bool, planReady: bool, validationReady: bool, needsContextCount: nat, blockedCount: nat)

  /** What a summary counts from the steps. */
  datatype Tally = Tally(total: nat, running: nat, succeeded: nat, failed: nat, skipped: nat, planned: nat)

  datatype Progress = Progress(completedCount: nat, remainingCount: nat, percent: nat)

  datatype Summary = Summary(
    status: RunStatus, context: Context, tally: Tally, progress: Progress, resumed: bool, resumedCount: nat)

  /** A run as a value: what a save writes. */
  datatype Snapshot = Snapshot(summary: Summary, steps: seq<StepRun>)

  /** The summary of a plan counts the steps that are not ready, and is ready when there are steps and none such. */
  predicate WellSummarized(plan: Plan) {
    && (plan.ready ==>
          plan.validationReady && plan.steps != [] && plan.needsContextCount == 0 && plan.blockedCount == 0)
    && (plan.needsContextCount == 0 && plan.blockedCount == 0 ==>
          forall i :: 0 <= i < |plan.steps| ==> plan.steps[i].status == StepReady)
  }

  /** A plan numbers its steps from 1. */
  predicate Numbered(plan: Plan) {
    forall i :: 0 <= i < |plan.steps| ==> plan.steps[i].stepNumber == i + 1
  }

  // ----- Progress -----

  function Count(steps: seq<StepRun>, status: StepStatus): (n: nat)
    ensures n <= |steps|
  {
    if steps == [] then 0
    else Count(steps[..|steps| - 1], status) + if steps[|steps| - 1].status == status then 1 else 0
  }

  function Percent(completed: nat, total: nat): nat {
    if total > 0 then completed * 100 / total else 0
  }

  /** The status that follows from context and tally; in the remaining case it stays what it was. */
  function StatusOf(was: RunStatus, c: Context, t: Tally): RunStatus {
    if t.failed > 0 then SomeFailed
    else if t.running > 0 then InProgress
    else if c.planReady && t.total > 0 && t.succeeded == t.total then AllSucceeded
    else if c.planReady && !c.confirmed then NeedsConfirmation
    else if c.planReady && c.confirmed && t.planned > 0 then InProgress
    else if !c.validationReady || !c.planReady || c.needsContextCount > 0 || c.blockedCount > 0 || t.skipped > 0
    then Blocked
    else was
  }

  /** A run without steps keeps the tally it has. */
  function TallyOf(was: Tally, steps: seq<StepRun>): Tally {
    if steps == [] then was
    else Tally(|steps|, Count(steps, Running), Count(steps, Succeeded), Count(steps, Failed), Count(steps, Skipped),
               Count(steps, Planned))
  }

  function ProgressOf(t: Tally): Progress {
    var completed := t.succeeded + t.failed;
    Progress(completed, if t.total < completed then 0 else t.total - completed, Percent(completed, t.total))
  }

  function RefreshedSummary(s: Summary, steps: seq<StepRun>): Summary {
    var t := TallyOf(s.tally, steps);
    Summary(StatusOf(s.status, s.context, t), s.context, t, ProgressOf(t), s.resumed, s.resumedCount)
  }

  function Refreshed(run: Snapshot): Snapshot {
    Snapshot(RefreshedSummary(run.summary, run.steps), run.steps)
  }

  function StartedStep(step: StepRun): StepRun {
    step.(status := Running, message := "Import running.", error := "")
  }

  function EndedStep(step: StepRun, status: StepStatus, message: string, error: string, response: string): StepRun {
    step.(status := status, message := message, error := error, response := response)
  }

  function Marked(run: Snapshot, i: nat): Snapshot {
    if i >= |run.steps| then run
    else Refreshed(Snapshot(run.summary, run.steps[i := StartedStep(run.steps[i])]))
  }

  function Completed(run: Snapshot, i: nat, status: StepStatus, message: string, error: string,
                     response: string): Snapshot
  {
    if i >= |run.steps| then run
    else Refreshed(Snapshot(run.summary, run.steps[i := EndedStep(run.steps[i], status, message, error, response)]))
  }

  // ----- New and resumed runs -----

  function NewStep(step: PlanStep, confirmed: bool): StepRun {
    var ready := step.status == StepReady;
    StepRun(step.stepNumber, step.kind, step.fileName, if ready then Planned else Skipped,
            if !ready then step.message
            else if confirmed then "Ready to import."
            else "Pass confirm=true to run this import.",
            "", "")
  }

  function NewSteps(steps: seq<PlanStep>, confirmed: bool): (runs: seq<StepRun>)
    ensures |runs| == |steps|
    ensures forall i :: 0 <= i < |steps| ==> runs[i] == NewStep(steps[i], confirmed)
  {
    if steps == [] then []
    else NewSteps(steps[..|steps| - 1], confirmed) + [NewStep(steps[|steps| - 1], confirmed)]
  }

  function NewSummary(plan: Plan, confirmed: bool): Summary {
    Summary(if plan.ready && confirmed then InProgress else if plan.ready then NeedsConfirmation else Blocked,
            Context(confirmed, plan.ready, plan.validationReady, plan.needsContextCount, plan.blockedCount),
            Tally(0, 0, 0, 0, 0, 0), Progress(0, 0, 0), false, 0)
  }

  function NewRun(plan: Plan, confirmed: bool): Snapshot {
    Refreshed(Snapshot(NewSummary(plan, confirmed), NewSteps(plan.steps, confirmed)))
  }

  /** What identifies a step across runs. */
  datatype StepKey = StepKey(stepNumber: int, kind: string, fileName: string)

  function KeyOf(step: StepRun): StepKey {
    StepKey(step.stepNumber, step.kind, step.fileName)
  }

  /** The previous run's successes; a later step wins over an earlier one with the same key. */
  function Successes(steps: seq<StepRun>): map<StepKey, StepRun> {
    if steps == [] then map[]
    else
      var last, before := steps[|steps| - 1], Successes(steps[..|steps| - 1]);
      if last.status == Succeeded then before[KeyOf(last) := last] else before
  }

  function ResumedStep(step: StepRun, done: map<StepKey, StepRun>): StepRun {
    if step.status == Planned && KeyOf(step) in done
    then step.(status := Succeeded, response := done[KeyOf(step)].response,
               message := "Step already succeeded in the previous run; skipping on resume.")
    else step
  }

  function ResumedSteps(steps: seq<StepRun>, done: map<StepKey, StepRun>): (runs: seq<StepRun>)
    ensures |runs| == |steps|
    ensures forall i :: 0 <= i < |steps| ==> runs[i] == ResumedStep(steps[i], done)
  {
    if steps == [] then []
    else ResumedSteps(steps[..|steps| - 1], done) + [ResumedStep(steps[|steps| - 1], done)]
  }

  /** How many steps a resume takes over. */
  function TakenOver(steps: seq<StepRun>, done: map<StepKey, StepRun>): nat {
    if steps == [] then 0
    else
      var last := steps[|steps| - 1];
      TakenOver(steps[..|steps| - 1], done) + if last.status == Planned && KeyOf(last) in done then 1 else 0
  }

  /** The first i steps are resumed, the others are as before. */
  predicate PartlyResumed(before: seq<StepRun>, now: seq<StepRun>, i: nat, done: map<StepKey, StepRun>) {
    && |now| == |before|
    && forall j :: 0 <= j < |before| ==> now[j] == if j < i then ResumedStep(before[j], done) else before[j]
  }

  lemma ResumeNext(before: seq<StepRun>, now: seq<StepRun>, i: nat, done: map<StepKey, StepRun>)
    requires PartlyResumed(before, now, i, done) && i < |before|
    ensures now[i] == before[i]
    ensures PartlyResumed(before, now[i := ResumedStep(before[i], done)], i + 1, done)
    ensures ResumedStep(before[i], done) == before[i] ==> PartlyResumed(before, now, i + 1, done)
  {}

  lemma AllResumed(before: seq<StepRun>, now: seq<StepRun>, done: map<StepKey, StepRun>)
    requires PartlyResumed(before, now, |before|, done)
    ensures now == ResumedSteps(before, done)
  {}

  function Resumed(run: Snapshot, from: Option<Snapshot>): Snapshot {
    if from.None? || Successes(from.value.steps) == map[] then run
    else
      var done := Successes(from.value.steps);
      var count := TakenOver(run.steps, done);
      var refreshed := Refreshed(run.(steps := ResumedSteps(run.steps, done)));
      var counted := refreshed.(summary := refreshed.summary.(resumedCount := count));
      if count == 0 then counted
      else Refreshed(counted.(summary := counted.summary.(resumed := true)))
  }

  function NewResumableRun(plan: Plan, confirmed: bool, from: Option<Snapshot>): Snapshot {
    Resumed(NewRun(plan, confirmed), from)
  }

  // ----- The run as an object -----

  class ExecutionRun {
    var summary: Summary
    var steps: seq<StepRun>

    ghost function View(): Snapshot
      reads this
    {
      Snapshot(summary, steps)
    }

    constructor (plan: Plan, confirmed: bool, from: Option<Snapshot>)
      ensures View() == NewResumableRun(plan, confirmed, from)
    {
      summary := NewSummary(plan, confirmed);
      steps := [];
      new;
      for i := 0 to |plan.steps|
        invariant View() == Snapshot(NewSummary(plan, confirmed), NewSteps(plan.steps[..i], confirmed))
      {
        assert plan.steps[..i + 1][..i] == plan.steps[..i];
        steps := steps + [NewStep(plan.steps[i], confirmed)];
      }
      assert plan.steps[..|plan.steps|] == plan.steps;
      Refresh();
      ApplyResume(from);
    }

    method ApplyResume(from: Option<Snapshot>)
      modifies this
      ensures View() == Resumed(old(View()), from)
    {
      if from.None? {
        return;
      }
      var done := CollectSuccesses(from.value.steps);
      if done == map[] {
        return;
      }
      var count := TakeOver(done);
      Refresh();
      summary := summary.(resumedCount := count);
      if count == 0 {
        return;
      }
      summary := summary.(resumed := true);
      Refresh();
    }

    static method CollectSuccesses(previous: seq<StepRun>) returns (done: map<StepKey, StepRun>)
      ensures done == Successes(previous)
    {
      done := map[];
      for i := 0 to |previous|
        invariant done == Successes(previous[..i])
      {
        assert previous[..i + 1][..i] == previous[..i];
        if previous[i].status != Succeeded {
          continue;
        }
        done := done[KeyOf(previous[i]) := previous[i]];
      }
      assert previous[..|previous|] == previous;
    }

    method TakeOver(done: map<StepKey, StepRun>) returns (count: nat)
      modifies this`steps
      ensures steps == ResumedSteps(old(steps), done) && count == TakenOver(old(steps), done)
    {
      ghost var before := steps;
      count := 0;
      for i := 0 to |steps|
        invariant PartlyResumed(before, steps, i, done) && count == TakenOver(before[..i], done)
      {
        assert before[..i + 1][..i] == before[..i];
        ResumeNext(before, steps, i, done);
        if steps[i].status != Planned {
          continue;
        }
        if KeyOf(steps[i]) !in done {
          continue;
        }
        steps := steps[i := steps[i].(status := Succeeded, response := done[KeyOf(steps[i])].response,
                                      message := "Step already succeeded in the previous run; skipping on resume.")];
        count := count + 1;
      }
      assert before[..|before|] == before;
      AllResumed(before, steps, done);
    }

    method Refresh()
      modifies this`summary
      ensures View() == Refreshed(old(View()))
    {
      if |steps| > 0 {
        var running, succeeded, failed, skipped, planned := 0, 0, 0, 0, 0;
        for i := 0 to |steps|
          invariant running == Count(steps[..i], Running) && succeeded == Count(steps[..i], Succeeded)
          invariant failed == Count(steps[..i], Failed) && skipped == Count(steps[..i], Skipped)
          invariant planned == Count(steps[..i], Planned)
        {
          assert steps[..i + 1][..i] == steps[..i];
          match steps[i].status {
            case Running => running := running + 1;
            case Failed => failed := failed + 1;
            case Planned => planned := planned + 1;
            case Skipped => skipped := skipped + 1;
            case Succeeded => succeeded := succeeded + 1;
          }
        }
        assert steps[..|steps|] == steps;
        summary := summary.(tally := Tally(|steps|, running, succeeded, failed, skipped, planned));
      }
      var completed := summary.tally.succeeded + summary.tally.failed;
      var remaining := if summary.tally.total < completed then 0 else summary.tally.total - completed;
      summary := summary.(progress := Progress(completed, remaining, Percent(completed, summary.tally.total)));
      summary := summary.(status := StatusOf(summary.status, summary.context, summary.tally));
    }

    method MarkRunning(i: nat)
      modifies this
      ensures View() == Marked(old(View()), i)
    {
      if i >= |steps| {
        return;
      }
      steps := steps[i := steps[i].(status := Running, message := "Import running.", error := "")];
      Refresh();
    }

    method Complete(i: nat, status: StepStatus, message: string, error: string, response: string)
      modifies this
      ensures View() == Completed(old(View()), i, status, message, error, response)
    {
      if i >= |steps| {
        return;
      }
      steps := steps[i := steps[i].(status := status, message := message, error := error, response := response)];
      Refresh();
    }
  }
}
