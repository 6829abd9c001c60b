// Where and how the command-line client ends an execution.
module MigrationClientEndings {
  import opened Options
  import opened CutoverRun
  import opened BundleFiles
  import opened MigrationServer
  import opened MigrationResume
  import opened MigrationStatus
  import opened MigrationClient

  /** The client takes this step up: it is not done, and the plan calls it ready. */
  predicate Due(plan: Plan, run: Snapshot, k: nat)
    requires |run.steps| == |plan.steps|
  {
    k < |plan.steps| && run.steps[k].status != Succeeded && plan.steps[k].status == StepReady
  }

  /** The client cannot get past this step. */
  predicate Troubled(plan: Plan, byKey: map<FileKey, BundleFile>, run: Snapshot, answers: Answers, k: nat)
    requires |run.steps| == |plan.steps|
  {
    Due(plan, run, k) && (!Has(byKey, plan.steps[k]) || (k in answers && answers[k].Failure?))
  }

  /** Step n is the first one from i on that the client cannot get past; it is the number of steps if there is none. */
  ghost predicate FirstTrouble(plan: Plan, byKey: map<FileKey, BundleFile>, run: Snapshot, answers: Answers, i: nat,
                               n: nat)
    requires |run.steps| == |plan.steps|
  {
    && i <= n <= |plan.steps|
    && (n < |plan.steps| ==> Troubled(plan, byKey, run, answers, n))
    && forall k: nat :: i <= k < n ==> !Troubled(plan, byKey, run, answers, k)
  }

  /** The due steps from i up to n, in order. */
  function DueSteps(plan: Plan, run: Snapshot, i: nat, n: nat): seq<nat>
    requires |run.steps| == |plan.steps|
    decreases n - i
  {
    if i >= n then [] else (if Due(plan, run, i) then [i] else []) + DueSteps(plan, run, i + 1, n)
  }

  function StepsOf(imports: seq<Import>): seq<nat> {
    if imports == [] then [] else [imports[0].step] + StepsOf(imports[1..])
  }

  /** The run after the client has gone from step i to its end at step n. */
  predicate RanTo(plan: Plan, before: Snapshot, after: Snapshot, i: nat, n: nat)
    requires |before.steps| == |plan.steps|
  {
    && |after.steps| == |before.steps|
    && (forall k :: i <= k < |plan.steps| && k < n ==>
          after.steps[k].status
          == if before.steps[k].status == Succeeded || plan.steps[k].status == StepReady then Succeeded else Skipped)
    && (n < |plan.steps| ==> after.steps[n].status == Failed && after.summary.status == SomeFailed)
    && (forall k :: 0 <= k < |plan.steps| && (k < i || k > n) ==> after.steps[k] == before.steps[k])
  }

  /** What the client did from step i on, when it ended at step n. */
  predicate EndedAt(client: Outcome, plan: Plan, byKey: map<FileKey, BundleFile>, run: Snapshot, i: nat, n: nat)
    requires |run.steps| == |plan.steps|
  {
    && client.ending == (if n >= |plan.steps| then AllDone
                         else if !Has(byKey, plan.steps[n]) then FileNotFound(n)
                         else ImportRefused(n))
    && StepsOf(client.imports)
       == DueSteps(plan, run, i, n) + (if client.ending.ImportRefused? then [n] else [])
    && RanTo(plan, run, client.run, i, n)
  }

  /** The client goes exactly to its first trouble. It imports the due steps before it, in order, skips those that are
      not ready, and reports a missing file or a refused import, whichever it met. */
  lemma {:induction false} LoopEndsAtTrouble(plan: Plan, byKey: map<FileKey, BundleFile>, run: Snapshot, i: nat,
                                             n: nat, answers: Answers, client: Outcome)
    requires |run.steps| == |plan.steps| && FirstTrouble(plan, byKey, run, answers, i, n)
    requires client == ClientLoop(plan, byKey, run, i, answers)
    ensures EndedAt(client, plan, byKey, run, i, n)
    decreases |plan.steps| - i
  {
    if i >= |plan.steps| {
      assert RanTo(plan, run, Finished(run), i, n);
    } else if Troubled(plan, byKey, run, answers, i) {
      TroubleEndsIt(plan, byKey, run, i, answers);
    } else {
      assert i < n;
      var one, after := OneStep(plan, byKey, run, i, answers);
      TroubleLooksAhead(plan, byKey, run, after, answers, i, n);
      var rest := ClientLoop(plan, byKey, after, i + 1, answers);
      LoopEndsAtTrouble(plan, byKey, after, i + 1, n, answers, rest);
      GoingOn(plan, byKey, run, after, one, rest, i, n);
    }
  }

  /** Where there is no trouble, the client goes on with the next step. */
  lemma OneStep(plan: Plan, byKey: map<FileKey, BundleFile>, run: Snapshot, i: nat, answers: Answers)
    returns (one: seq<Import>, after: Snapshot)
    requires i < |run.steps| == |plan.steps| && !Troubled(plan, byKey, run, answers, i)
    ensures |after.steps| == |run.steps|
    ensures forall k :: 0 <= k < |run.steps| && k != i ==> after.steps[k] == run.steps[k]
    ensures after.steps[i].status
         == if run.steps[i].status == Succeeded || plan.steps[i].status == StepReady then Succeeded else Skipped
    ensures StepsOf(one) == if Due(plan, run, i) then [i] else []
    ensures ClientLoop(plan, byKey, run, i, answers) == Before(one, ClientLoop(plan, byKey, after, i + 1, answers))
  {
    one, after := [], run;
    if Due(plan, run, i) {
      one := [Import(i, FileFor(byKey, plan.steps[i]), true)];
      after := Imports(Marked(run, i), i, AnswerOf(answers, i));
      ImportChangesOne(run, i, AnswerOf(answers, i));
    } else if run.steps[i].status != Succeeded {
      after := SkippedAt(run, i);
    }
  }

  lemma GoingOn(plan: Plan, byKey: map<FileKey, BundleFile>, before: Snapshot, after: Snapshot, one: seq<Import>,
                rest: Outcome, i: nat, n: nat)
    requires |before.steps| == |after.steps| == |plan.steps| && i < n <= |plan.steps|
    requires forall k :: 0 <= k < |plan.steps| && k != i ==> after.steps[k] == before.steps[k]
    requires after.steps[i].status
          == if before.steps[i].status == Succeeded || plan.steps[i].status == StepReady then Succeeded else Skipped
    requires StepsOf(one) == if Due(plan, before, i) then [i] else []
    requires EndedAt(rest, plan, byKey, after, i + 1, n)
    ensures EndedAt(Before(one, rest), plan, byKey, before, i, n)
  {
    RanOn(plan, before, after, rest.run, i, n);
    ImportedOn(plan, before, after, one, rest.imports, i, n, if rest.ending.ImportRefused? then [n] else []);
  }

  lemma ImportedOn(plan: Plan, before: Snapshot, after: Snapshot, one: seq<Import>, imports: seq<Import>, i: nat,
                   n: nat, refused: seq<nat>)
    requires |before.steps| == |after.steps| == |plan.steps| && i < n
    requires forall k :: i < k < |plan.steps| ==> after.steps[k] == before.steps[k]
    requires StepsOf(one) == if Due(plan, before, i) then [i] else []
    requires StepsOf(imports) == DueSteps(plan, after, i + 1, n) + refused
    ensures StepsOf(one + imports) == DueSteps(plan, before, i, n) + refused
  {
    DueLooksAhead(plan, before, after, i + 1, n);
    StepsOfConcat(one, imports);
  }

  lemma RanOn(plan: Plan, before: Snapshot, after: Snapshot, end: Snapshot, i: nat, n: nat)
    requires |before.steps| == |after.steps| == |plan.steps| && i < n <= |plan.steps|
    requires forall k :: 0 <= k < |plan.steps| && k != i ==> after.steps[k] == before.steps[k]
    requires after.steps[i].status
          == if before.steps[i].status == Succeeded || plan.steps[i].status == StepReady then Succeeded else Skipped
    requires RanTo(plan, after, end, i + 1, n)
    ensures RanTo(plan, before, end, i, n)
  {
    assert end.steps[i] == after.steps[i];
  }

  lemma {:induction false} StepsOfConcat(a: seq<Import>, b: seq<Import>)
    ensures StepsOf(a + b) == StepsOf(a) + StepsOf(b)
  {
    if a == [] {
      assert a + b == b;
    } else {
      assert (a + b)[1..] == a[1..] + b;
      StepsOfConcat(a[1..], b);
    }
  }

  lemma {:induction false} DueLooksAhead(plan: Plan, a: Snapshot, b: Snapshot, i: nat, n: nat)
    requires |a.steps| == |b.steps| == |plan.steps|
    requires forall k :: i <= k < |a.steps| ==> a.steps[k] == b.steps[k]
    ensures DueSteps(plan, a, i, n) == DueSteps(plan, b, i, n)
    decreases n - i
  {
    if i < n {
      DueLooksAhead(plan, a, b, i + 1, n);
      if i < |a.steps| {
        assert a.steps[i] == b.steps[i];
      }
    }
  }

  lemma TroubleLooksAhead(plan: Plan, byKey: map<FileKey, BundleFile>, a: Snapshot, b: Snapshot, answers: Answers,
                          i: nat, n: nat)
    requires |a.steps| == |b.steps| == |plan.steps| && i < n && FirstTrouble(plan, byKey, a, answers, i, n)
    requires forall k :: i < k < |a.steps| ==> a.steps[k] == b.steps[k]
    ensures FirstTrouble(plan, byKey, b, answers, i + 1, n)
  {
    forall k: nat | i + 1 <= k < n ensures !Troubled(plan, byKey, b, answers, k) {
      assert !Troubled(plan, byKey, a, answers, k);
      assert a.steps[k] == b.steps[k];
    }
  }

  lemma FailureShows(run: Snapshot, i: nat, message: string, error: string)
    requires i < |run.steps|
    ensures var after := Completed(run, i, Failed, message, error, "");
      && |after.steps| == |run.steps| && after.steps[i].status == Failed && after.summary.status == SomeFailed
      && forall k :: 0 <= k < |run.steps| && k != i ==> after.steps[k] == run.steps[k]
  {
    var steps := run.steps[i := EndedStep(run.steps[i], Failed, message, error, "")];
    assert steps[i].status == Failed;
    CountTells(steps, Failed);
  }

  lemma TroubleEndsIt(plan: Plan, byKey: map<FileKey, BundleFile>, run: Snapshot, i: nat, answers: Answers)
    requires |run.steps| == |plan.steps| && Troubled(plan, byKey, run, answers, i)
    ensures EndedAt(ClientLoop(plan, byKey, run, i, answers), plan, byKey, run, i, i)
  {
    if Has(byKey, plan.steps[i]) {
      MarkingChangesOne(run, i);
      FailureShows(Marked(run, i), i, "Import failed.", AnswerOf(answers, i).error);
    } else {
      FailureShows(run, i, "Import failed.", "migration bundle file not found");
    }
  }

  /** There always is such a step, or the end of the plan. */
  lemma {:induction false} FindTrouble(plan: Plan, byKey: map<FileKey, BundleFile>, run: Snapshot, answers: Answers,
                                       i: nat)
    returns (n: nat)
    requires |run.steps| == |plan.steps| && i <= |plan.steps|
    ensures FirstTrouble(plan, byKey, run, answers, i, n)
    decreases |plan.steps| - i
  {
    n := i;
    if i < |plan.steps| && !Troubled(plan, byKey, run, answers, i) {
      n := FindTrouble(plan, byKey, run, answers, i + 1);
    }
  }

  /** Whatever the plan, the files and the previous run: the client refuses a plan that is not ready, then asks for
      confirmation, and otherwise goes exactly to its first trouble or through the whole plan. */
  lemma {:induction false} ClientEndsAtFirstTrouble(plan: Plan, files: seq<BundleFile>, from: Option<Snapshot>,
                                                    confirm: bool, answers: Answers, run: Snapshot)
    returns (n: nat)
    requires run == ClientRun(plan, confirm, from)
    ensures |run.steps| == |plan.steps| && FirstTrouble(plan, Indexed(files), run, answers, 0, n)
    ensures var client := Client(plan, files, from, confirm, answers);
      if !plan.ready then client == Outcome([], run, PlanNotReady)
      else if !confirm then client == Outcome([], run, Unconfirmed)
      else EndedAt(client, plan, Indexed(files), run, 0, n)
  {
    n := FindTrouble(plan, Indexed(files), run, answers, 0);
    if plan.ready && confirm {
      LoopEndsAtTrouble(plan, Indexed(files), run, 0, n, answers, ClientLoop(plan, Indexed(files), run, 0, answers));
    }
  }
}
