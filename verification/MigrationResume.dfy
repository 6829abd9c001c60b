// Executions that are interrupted anywhere and resumed from the last saved snapshot, any number of times.
module MigrationResume {
  import opened Options
  import opened CutoverRun
  import opened BundleFiles
  import opened MigrationServer

  function LastSaved(events: seq<Event>): Option<Snapshot> {
    if events == [] then None
    else if events[|events| - 1].Saved? then Some(events[|events| - 1].run)
    else LastSaved(events[..|events| - 1])
  }

  /** Each attempt resumes from the last snapshot saved so far, and gets as far as its cut. */
  function History(plan: Plan, files: seq<BundleFile>, events: seq<Event>, attempts: seq<Attempt>): seq<Event>
    decreases |attempts|
  {
    if attempts == [] then events
    else
      var one := UpTo(AttemptEvents(plan, files, LastSaved(events), attempts[0]), attempts[0].cut);
      History(plan, files, events + one, attempts[1..])
  }

  /** The steps that a snapshot records as succeeded. */
  function Done(run: Snapshot): set<nat> {
    set k: nat | k < |run.steps| && run.steps[k].status == Succeeded
  }

  /** These steps are done: no snapshot forgets one of them, and none of them is imported. */
  ghost predicate Respects(events: seq<Event>, done: set<nat>) {
    forall j :: 0 <= j < |events| ==>
      match events[j]
      case Saved(run) => done <= Done(run)
      case Imported(k, _, _) => k !in done
  }

  /** Whatever a snapshot records as done is respected by everything after it. */
  ghost predicate Ordered(events: seq<Event>) {
    events == []
    || (Ordered(events[1..]) && (events[0].Saved? ==> Respects(events[1..], Done(events[0].run))))
  }

  /** Every import directly follows a snapshot that shows its step as running. */
  ghost predicate Announced(events: seq<Event>) {
    forall j :: 0 <= j < |events| && events[j].Imported? ==>
      && j > 0 && events[j - 1].Saved?
      && events[j].step < |events[j - 1].run.steps|
      && events[j - 1].run.steps[events[j].step].status == Running
  }

  // ----- Sequences of events -----

  lemma RespectsConcat(a: seq<Event>, b: seq<Event>, done: set<nat>)
    ensures Respects(a + b, done) <==> Respects(a, done) && Respects(b, done)
  {
    if Respects(a + b, done) {
      assert forall j :: 0 <= j < |a| ==> a[j] == (a + b)[j];
      assert forall j :: 0 <= j < |b| ==> b[j] == (a + b)[|a| + j];
    }
  }

  lemma {:induction false} OrderedConcat(a: seq<Event>, b: seq<Event>)
    requires Ordered(a) && Ordered(b)
    requires forall j :: 0 <= j < |a| && a[j].Saved? ==> Respects(b, Done(a[j].run))
    ensures Ordered(a + b)
  {
    if a == [] {
      assert a + b == b;
    } else {
      assert (a + b)[1..] == a[1..] + b;
      OrderedConcat(a[1..], b);
      if a[0].Saved? {
        RespectsConcat(a[1..], b, Done(a[0].run));
      }
    }
  }

  lemma {:induction false} OrderedPrefix(events: seq<Event>, n: nat)
    requires Ordered(events) && n <= |events|
    ensures Ordered(events[..n])
  {
    if n > 0 {
      assert events[..n][1..] == events[1..][..n - 1];
      OrderedPrefix(events[1..], n - 1);
      if events[0].Saved? {
        RespectsConcat(events[1..][..n - 1], events[1..][n - 1..], Done(events[0].run));
        assert events[1..][..n - 1] + events[1..][n - 1..] == events[1..];
      }
    }
  }

  lemma {:induction false} OrderedAt(events: seq<Event>, i: nat)
    requires Ordered(events) && i < |events| && events[i].Saved?
    ensures Respects(events[i + 1..], Done(events[i].run))
  {
    if i > 0 {
      OrderedAt(events[1..], i - 1);
      assert events[1..][i..] == events[i + 1..];
    }
  }

  /** In an ordered history the last snapshot knows everything that any snapshot knew. */
  lemma {:induction false} LastKnowsAll(events: seq<Event>, i: nat)
    requires Ordered(events) && i < |events| && events[i].Saved?
    ensures LastSaved(events).Some? && Done(events[i].run) <= Done(LastSaved(events).value)
    decreases |events|
  {
    var n := |events| - 1;
    if events[n].Saved? {
      if i < n {
        OrderedAt(events, i);
        assert events[i + 1..][n - i - 1] == events[n];
      }
    } else {
      OrderedPrefix(events, n);
      LastKnowsAll(events[..n], i);
    }
  }

  lemma {:induction false} LastSavedIsSaved(events: seq<Event>) returns (i: nat)
    requires LastSaved(events).Some?
    ensures i < |events| && events[i] == Saved(LastSaved(events).value)
  {
    i := |events| - 1;
    if !events[i].Saved? {
      i := LastSavedIsSaved(events[..i]);
    }
  }

  // ----- Snapshots of one plan -----

  /** The snapshot has the plan's steps, in the plan's order. */
  predicate Shaped(plan: Plan, run: Snapshot) {
    && |run.steps| == |plan.steps|
    && forall k :: 0 <= k < |plan.steps| ==>
         KeyOf(run.steps[k]) == StepKey(plan.steps[k].stepNumber, plan.steps[k].kind, plan.steps[k].fileName)
  }

  lemma AfterMarking(plan: Plan, run: Snapshot, i: nat)
    requires Shaped(plan, run) && i < |run.steps| && i !in Done(run)
    ensures Shaped(plan, Marked(run, i)) && Done(Marked(run, i)) == Done(run)
    ensures Marked(run, i).steps[i].status == Running
    ensures forall k :: 0 <= k < |run.steps| && k != i ==> Marked(run, i).steps[k] == run.steps[k]
  {}

  lemma AfterImport(plan: Plan, run: Snapshot, i: nat, answer: ImportResult)
    requires Shaped(plan, run) && i < |run.steps| && i !in Done(run)
    ensures Shaped(plan, Imports(Marked(run, i), i, answer))
    ensures Done(Imports(Marked(run, i), i, answer)) == if answer.Success? then Done(run) + {i} else Done(run)
    ensures forall k :: 0 <= k < |run.steps| && k != i ==> Imports(Marked(run, i), i, answer).steps[k] == run.steps[k]
  {
    var after := Imports(Marked(run, i), i, answer);
    forall k: nat ensures k in Done(after) <==> k in Done(run) || (k == i && answer.Success?) {
      if k < |run.steps| && k != i {
        assert after.steps[k] == run.steps[k];
      }
    }
  }

  // ----- One attempt -----

  /** The events respect what is done, and do everything in order. */
  ghost predicate Orderly(plan: Plan, events: seq<Event>, done: set<nat>) {
    Respects(events, done) && Ordered(events) && Announced(events) && AllShaped(plan, events)
  }

  /** The loop never forgets a done step, never imports one again, and announces every import. */
  lemma {:induction false} LoopIsOrderly(plan: Plan, byKey: map<FileKey, BundleFile>, run: Snapshot, i: nat,
                                         answers: Answers)
    requires Shaped(plan, run)
    ensures Orderly(plan, LoopEvents(plan, byKey, run, i, answers), Done(run))
    decreases |plan.steps| - i
  {
    if i >= |plan.steps| {
      FinishIsOrderly(plan, run);
    } else if run.steps[i].status == Succeeded {
      LoopIsOrderly(plan, byKey, run, i + 1, answers);
    } else {
      var after := Imports(Marked(run, i), i, AnswerOf(answers, i));
      ImportKeepsShape(plan, run, i, AnswerOf(answers, i));
      LoopIsOrderly(plan, byKey, after, i + 1, answers);
      TakingIsOrderly(plan, byKey, run, i, answers, after, LoopEvents(plan, byKey, after, i + 1, answers));
    }
  }

  lemma ImportKeepsShape(plan: Plan, run: Snapshot, i: nat, answer: ImportResult)
    requires Shaped(plan, run)
    ensures Shaped(plan, Imports(Marked(run, i), i, answer))
  {}

  lemma TakingIsOrderly(plan: Plan, byKey: map<FileKey, BundleFile>, run: Snapshot, i: nat, answers: Answers,
                        after: Snapshot, rest: seq<Event>)
    requires Shaped(plan, run) && i < |plan.steps| && run.steps[i].status != Succeeded
    requires after == Imports(Marked(run, i), i, AnswerOf(answers, i)) && |after.steps| == |plan.steps|
    requires rest == LoopEvents(plan, byKey, after, i + 1, answers) && Orderly(plan, rest, Done(after))
    ensures Orderly(plan, LoopEvents(plan, byKey, run, i, answers), Done(run))
  {
    if AnswerOf(answers, i).Success? {
      StepIsOrderly(plan, byKey, run, i, AnswerOf(answers, i), rest);
    } else {
      assert Orderly(plan, [], Done(after));
      StepIsOrderly(plan, byKey, run, i, AnswerOf(answers, i), []);
    }
  }

  lemma FinishIsOrderly(plan: Plan, run: Snapshot)
    requires Shaped(plan, run)
    ensures Orderly(plan, [Saved(Finished(run))], Done(run))
  {
    assert Done(Finished(run)) == Done(run);
    SingleIsOrdered(Saved(Finished(run)));
  }

  lemma SingleIsOrdered(event: Event)
    ensures Ordered([event])
  {
    assert [event][1..] == [];
    assert Ordered([event][1..]);
  }

  lemma StepIsOrderly(plan: Plan, byKey: map<FileKey, BundleFile>, run: Snapshot, i: nat, answer: ImportResult,
                      rest: seq<Event>)
    requires Shaped(plan, run) && i < |plan.steps| && i !in Done(run)
    requires Orderly(plan, rest, Done(Imports(Marked(run, i), i, answer)))
    ensures Orderly(plan, StepEvents(plan, byKey, run, i, answer) + rest, Done(run))
  {
    AfterMarking(plan, run, i);
    AfterImport(plan, run, i, answer);
    StepThenRest(plan, Done(run), Marked(run, i), i, FileFor(byKey, plan.steps[i]), answer.Success?,
                 Imports(Marked(run, i), i, answer), rest);
  }

  ghost predicate AllShaped(plan: Plan, events: seq<Event>) {
    forall j :: 0 <= j < |events| && events[j].Saved? ==> Shaped(plan, events[j].run)
  }

  lemma StepThenRest(plan: Plan, done: set<nat>, marked: Snapshot, i: nat, file: BundleFile, ok: bool, after: Snapshot,
                     rest: seq<Event>)
    requires Shaped(plan, marked) && Done(marked) == done && i !in done
    requires i < |marked.steps| && marked.steps[i].status == Running
    requires Shaped(plan, after) && done <= Done(after)
    requires Orderly(plan, rest, Done(after))
    ensures Orderly(plan, [Saved(marked), Imported(i, file, ok), Saved(after)] + rest, done)
  {
    var step := [Saved(marked), Imported(i, file, ok), Saved(after)];
    assert Respects(rest, done);
    assert Ordered(step) by {
      SingleIsOrdered(step[2]);
      assert step[1..][1..] == [step[2]];
      assert Ordered(step[1..]);
    }
    RespectsConcat(step, rest, done);
    OrderedConcat(step, rest);
    AnnouncedConcat(step, rest);
  }

  lemma AnnouncedConcat(a: seq<Event>, b: seq<Event>)
    requires Announced(a) && Announced(b)
    ensures Announced(a + b)
  {
    forall j | 0 <= j < |a + b| && (a + b)[j].Imported?
      ensures j > 0 && (a + b)[j - 1].Saved?
      ensures (a + b)[j].step < |(a + b)[j - 1].run.steps|
      ensures (a + b)[j - 1].run.steps[(a + b)[j].step].status == Running
    {
      if j < |a| {
        assert (a + b)[j] == a[j] && (a + b)[j - 1] == a[j - 1];
      } else {
        assert (a + b)[j] == b[j - |a|] && (a + b)[j - 1] == b[j - |a| - 1];
      }
    }
  }

  // ----- What a resume takes over -----

  lemma {:induction false} SuccessesAreDone(steps: seq<StepRun>, key: StepKey)
    ensures key in Successes(steps) <==>
      exists k :: 0 <= k < |steps| && steps[k].status == Succeeded && KeyOf(steps[k]) == key
  {
    if steps != [] {
      var n := |steps| - 1;
      SuccessesAreDone(steps[..n], key);
      if exists k :: 0 <= k < n && steps[..n][k].status == Succeeded && KeyOf(steps[..n][k]) == key {
        var k :| 0 <= k < n && steps[..n][k].status == Succeeded && KeyOf(steps[..n][k]) == key;
        assert steps[k].status == Succeeded && KeyOf(steps[k]) == key;
      }
    }
  }

  /** The key of a numbered plan's step is found among the successes exactly when that very step succeeded. */
  lemma OwnSuccess(plan: Plan, from: Snapshot, k: nat)
    requires Numbered(plan) && Shaped(plan, from) && k < |plan.steps|
    ensures KeyOf(from.steps[k]) in Successes(from.steps) <==> k in Done(from)
  {
    SuccessesAreDone(from.steps, KeyOf(from.steps[k]));
  }

  lemma NewRunIsFresh(plan: Plan, confirmed: bool)
    ensures Shaped(plan, NewRun(plan, confirmed)) && Done(NewRun(plan, confirmed)) == {}
    ensures NewRun(plan, confirmed).steps == NewSteps(plan.steps, confirmed)
  {}

  lemma SameDone(a: Snapshot, b: Snapshot)
    requires |a.steps| == |b.steps| && forall k: nat :: k < |a.steps| ==> (k in Done(a) <==> k in Done(b))
    ensures Done(a) == Done(b)
  {}

  lemma StepsOfResumed(run: Snapshot, from: Snapshot)
    ensures |Resumed(run, Some(from)).steps| == |run.steps|
    ensures forall k :: 0 <= k < |run.steps| ==>
      Resumed(run, Some(from)).steps[k]
      == if Successes(from.steps) == map[] then run.steps[k] else ResumedStep(run.steps[k], Successes(from.steps))
  {}

  lemma TakesOverFrom(plan: Plan, confirmed: bool, from: Snapshot, run: Snapshot, k: nat)
    requires WellSummarized(plan) && Numbered(plan) && Shaped(plan, from) && (!plan.ready ==> Done(from) == {})
    requires run == NewResumableRun(plan, confirmed, Some(from)) && k < |plan.steps|
    ensures |run.steps| == |plan.steps| && KeyOf(run.steps[k]) == KeyOf(from.steps[k])
    ensures k in Done(run) <==> k in Done(from)
    ensures plan.ready ==> run.steps[k].status == Planned || run.steps[k].status == Succeeded
  {
    NewRunIsFresh(plan, confirmed);
    StepsOfResumed(NewRun(plan, confirmed), from);
    OwnSuccess(plan, from, k);
  }

  /** What is done when a request starts: what the previous snapshot, if any, has done. */
  function DoneBefore(from: Option<Snapshot>): set<nat> {
    if from.Some? then Done(from.value) else {}
  }

  predicate Resumable(plan: Plan, from: Option<Snapshot>) {
    from.Some? ==> Shaped(plan, from.value) && (!plan.ready ==> Done(from.value) == {})
  }

  /** Every run takes over exactly the steps that the previous snapshot has done, and has no other step done. With a
      ready plan all other steps are planned. */
  lemma ResumeTakesOver(plan: Plan, confirmed: bool, from: Option<Snapshot>, run: Snapshot)
    requires WellSummarized(plan) && Numbered(plan) && Resumable(plan, from)
    requires run == NewResumableRun(plan, confirmed, from)
    ensures Shaped(plan, run) && Done(run) == DoneBefore(from)
    ensures plan.ready ==> forall k :: 0 <= k < |run.steps| ==>
      run.steps[k].status == Planned || run.steps[k].status == Succeeded
  {
    NewRunIsFresh(plan, confirmed);
    if from.Some? {
      StepsOfResumed(NewRun(plan, confirmed), from.value);
      forall k: nat | k < |plan.steps|
        ensures KeyOf(run.steps[k]) == KeyOf(from.value.steps[k])
        ensures k in Done(run) <==> k in Done(from.value)
        ensures plan.ready ==> run.steps[k].status == Planned || run.steps[k].status == Succeeded
      {
        TakesOverFrom(plan, confirmed, from.value, run, k);
      }
      SameDone(run, from.value);
    }
  }

  predicate KeySucceeded(from: Snapshot, key: StepKey) {
    exists j :: 0 <= j < |from.steps| && from.steps[j].status == Succeeded && KeyOf(from.steps[j]) == key
  }

  /** Resuming with any plan, also with another one than before: a step counts as done exactly when it is ready and a
      step of its number, kind and file had succeeded. A success under another number is forgotten. */
  lemma TakenOverExactlyWhen(plan: Plan, confirmed: bool, from: Snapshot, k: nat)
    requires k < |plan.steps|
    ensures var step := plan.steps[k];
      k in Done(NewResumableRun(plan, confirmed, Some(from)))
      <==> step.status == StepReady && KeySucceeded(from, StepKey(step.stepNumber, step.kind, step.fileName))
  {
    var step := plan.steps[k];
    ResumedStepOf(plan, confirmed, from, k);
    SuccessesAreDone(from.steps, StepKey(step.stepNumber, step.kind, step.fileName));
  }

  lemma ResumedStepOf(plan: Plan, confirmed: bool, from: Snapshot, k: nat)
    requires k < |plan.steps|
    ensures |NewResumableRun(plan, confirmed, Some(from)).steps| == |plan.steps|
    ensures var made := NewStep(plan.steps[k], confirmed);
      NewResumableRun(plan, confirmed, Some(from)).steps[k].status
      == if made.status == Planned && KeyOf(made) in Successes(from.steps) then Succeeded else made.status
  {
    NewRunIsFresh(plan, confirmed);
    StepsOfResumed(NewRun(plan, confirmed), from);
  }

  // ----- Any schedule of attempts -----

  ghost predicate NothingDone(events: seq<Event>) {
    forall j :: 0 <= j < |events| ==> events[j].Saved? && Done(events[j].run) == {}
  }

  lemma AttemptIsOrderly(plan: Plan, files: seq<BundleFile>, from: Option<Snapshot>, attempt: Attempt)
    requires WellSummarized(plan) && Numbered(plan) && Resumable(plan, from)
    ensures Orderly(plan, AttemptEvents(plan, files, from, attempt), DoneBefore(from))
    ensures !plan.ready ==> NothingDone(AttemptEvents(plan, files, from, attempt))
  {
    var run := NewResumableRun(plan, attempt.confirm, from);
    ResumeTakesOver(plan, attempt.confirm, from, run);
    var rest: seq<Event> := [];
    if attempt.confirm && plan.ready {
      LoopIsOrderly(plan, Indexed(files), run, 0, attempt.answers);
      rest := LoopEvents(plan, Indexed(files), run, 0, attempt.answers);
    }
    FirstThenRest(plan, run, rest, DoneBefore(from));
  }

  lemma FirstThenRest(plan: Plan, run: Snapshot, rest: seq<Event>, done: set<nat>)
    requires Shaped(plan, run) && Done(run) == done && Orderly(plan, rest, done)
    ensures Orderly(plan, [Saved(run)] + rest, done)
  {
    SingleIsOrdered(Saved(run));
    RespectsConcat([Saved(run)], rest, done);
    OrderedConcat([Saved(run)], rest);
    AnnouncedConcat([Saved(run)], rest);
  }

  lemma OrderlyPrefix(plan: Plan, events: seq<Event>, done: set<nat>, n: nat)
    requires Orderly(plan, events, done) && n <= |events|
    ensures Orderly(plan, events[..n], done)
  {
    OrderedPrefix(events, n);
    assert events[..n] + events[n..] == events;
    RespectsConcat(events[..n], events[n..], done);
  }

  /** What the events so far leave for the next attempt. */
  ghost predicate Consistent(plan: Plan, events: seq<Event>) {
    Orderly(plan, events, {}) && Resumable(plan, LastSaved(events))
  }

  lemma AttemptKeepsConsistent(plan: Plan, files: seq<BundleFile>, events: seq<Event>, attempt: Attempt)
    requires WellSummarized(plan) && Numbered(plan) && Consistent(plan, events)
    ensures Consistent(plan, events + UpTo(AttemptEvents(plan, files, LastSaved(events), attempt), attempt.cut))
  {
    var from := LastSaved(events);
    var all := AttemptEvents(plan, files, from, attempt);
    AttemptIsOrderly(plan, files, from, attempt);
    if attempt.cut < |all| {
      OrderlyPrefix(plan, all, DoneBefore(from), attempt.cut);
    }
    AppendKeepsConsistent(plan, events, UpTo(all, attempt.cut));
  }

  lemma AppendKeepsConsistent(plan: Plan, events: seq<Event>, one: seq<Event>)
    requires Consistent(plan, events) && Orderly(plan, one, DoneBefore(LastSaved(events)))
    requires !plan.ready ==> NothingDone(one)
    ensures Consistent(plan, events + one)
  {
    forall j | 0 <= j < |events| && events[j].Saved? ensures Respects(one, Done(events[j].run)) {
      LastKnowsAll(events, j);
    }
    OrderedConcat(events, one);
    AnnouncedConcat(events, one);
    assert Respects(one, {});
    RespectsConcat(events, one, {});
    LastSavedOfConcat(events, one);
    if LastSaved(one).Some? {
      var i := LastSavedIsSaved(one);
    }
  }

  lemma {:induction false} LastSavedOfConcat(a: seq<Event>, b: seq<Event>)
    ensures LastSaved(a + b) == if LastSaved(b).Some? then LastSaved(b) else LastSaved(a)
  {
    if b == [] {
      assert a + b == a;
    } else {
      var n := |b| - 1;
      assert (a + b)[..|a + b| - 1] == a + b[..n];
      LastSavedOfConcat(a, b[..n]);
    }
  }

  lemma {:induction false} HistoryIsConsistent(plan: Plan, files: seq<BundleFile>, events: seq<Event>,
                                               attempts: seq<Attempt>)
    requires WellSummarized(plan) && Numbered(plan) && Consistent(plan, events)
    ensures Consistent(plan, History(plan, files, events, attempts))
    decreases |attempts|
  {
    if attempts != [] {
      AttemptKeepsConsistent(plan, files, events, attempts[0]);
      var one := UpTo(AttemptEvents(plan, files, LastSaved(events), attempts[0]), attempts[0].cut);
      HistoryIsConsistent(plan, files, events + one, attempts[1..]);
    }
  }

  /** Under any schedule of attempts, each interrupted anywhere and resumed from the last saved snapshot: once a
      snapshot shows a step as succeeded, all later ones do, and the step is never imported again. */
  lemma SavedSuccessIsFinal(plan: Plan, files: seq<BundleFile>, attempts: seq<Attempt>, i: nat, j: nat, k: nat)
    requires WellSummarized(plan) && Numbered(plan)
    requires var h := History(plan, files, [], attempts); i < j < |h| && h[i].Saved? && k in Done(h[i].run)
    ensures var h := History(plan, files, [], attempts);
      && (h[j].Saved? ==> k in Done(h[j].run))
      && (h[j].Imported? ==> h[j].step != k)
  {
    var h := History(plan, files, [], attempts);
    HistoryIsConsistent(plan, files, [], attempts);
    OrderedAt(h, i);
    assert h[i + 1..][j - i - 1] == h[j];
  }

  /** Under any such schedule every import directly follows a saved snapshot that shows its step as running. */
  lemma ImportsAreAnnounced(plan: Plan, files: seq<BundleFile>, attempts: seq<Attempt>, j: nat)
    requires WellSummarized(plan) && Numbered(plan)
    requires var h := History(plan, files, [], attempts); j < |h| && h[j].Imported?
    ensures var h := History(plan, files, [], attempts);
      && j > 0 && h[j - 1].Saved? && h[j].step < |h[j - 1].run.steps|
      && h[j - 1].run.steps[h[j].step].status == Running
  {
    HistoryIsConsistent(plan, files, [], attempts);
  }

  // ----- How often a step can be repeated -----

  predicate SuccessOf(event: Event, k: nat) {
    event.Imported? && event.step == k && event.ok
  }

  /** A successful import is lost when the next thing recorded is not the snapshot that shows its success. */
  predicate LostAt(events: seq<Event>, j: nat)
    requires j < |events|
  {
    && events[j].Imported? && events[j].ok
    && !(j + 1 < |events| && events[j + 1].Saved? && events[j].step in Done(events[j + 1].run))
  }

  function Successful(events: seq<Event>, k: nat): nat {
    if events == [] then 0 else (if SuccessOf(events[0], k) then 1 else 0) + Successful(events[1..], k)
  }

  function Lost(events: seq<Event>, k: nat): nat {
    if events == [] then 0
    else (if SuccessOf(events[0], k) && LostAt(events, 0) then 1 else 0) + Lost(events[1..], k)
  }

  function AllLost(events: seq<Event>): nat {
    if events == [] then 0 else (if LostAt(events, 0) then 1 else 0) + AllLost(events[1..])
  }

  lemma {:induction false} RespectedStepsHaveNoSuccess(events: seq<Event>, done: set<nat>, k: nat)
    requires Respects(events, done) && k in done
    ensures Successful(events, k) == 0
  {
    if events != [] {
      RespectsConcat([events[0]], events[1..], done);
      assert [events[0]] + events[1..] == events;
      RespectedStepsHaveNoSuccess(events[1..], done, k);
    }
  }

  lemma {:induction false} OrderedSuccesses(events: seq<Event>, k: nat)
    requires Ordered(events)
    ensures Successful(events, k) <= 1 + Lost(events, k)
  {
    if events != [] {
      if SuccessOf(events[0], k) && !LostAt(events, 0) {
        var rest := events[1..];
        assert rest[0] == events[1] && Ordered(rest);
        RespectedStepsHaveNoSuccess(rest[1..], Done(rest[0].run), k);
        assert Successful(rest, k) == 0;
      } else {
        OrderedSuccesses(events[1..], k);
      }
    }
  }

  /** A step is successfully imported at most once, plus once for every time its success was lost. */
  lemma {:induction false} EachStepOnceUnlessLost(plan: Plan, files: seq<BundleFile>, attempts: seq<Attempt>, k: nat)
    requires WellSummarized(plan) && Numbered(plan)
    ensures var h := History(plan, files, [], attempts); Successful(h, k) <= 1 + Lost(h, k)
  {
    HistoryIsConsistent(plan, files, [], attempts);
    OrderedSuccesses(History(plan, files, [], attempts), k);
  }

  lemma {:induction false} LostConcat(a: seq<Event>, b: seq<Event>)
    ensures AllLost(a + b) <= AllLost(a) + AllLost(b)
  {
    if a == [] {
      assert a + b == b;
    } else {
      assert (a + b)[1..] == a[1..] + b;
      LostConcat(a[1..], b);
    }
  }

  ghost predicate LosesNothing(events: seq<Event>) {
    forall j :: 0 <= j < |events| ==> !LostAt(events, j)
  }

  /** Within one attempt only the very last event can be a lost import. */
  ghost predicate LosesOnlyAtEnd(events: seq<Event>) {
    forall j :: 0 <= j < |events| - 1 ==> !LostAt(events, j)
  }

  lemma {:induction false} AtMostOneLost(events: seq<Event>)
    requires LosesOnlyAtEnd(events)
    ensures AllLost(events) <= 1
  {
    if events != [] {
      forall j | 0 <= j < |events[1..]| - 1 ensures !LostAt(events[1..], j) {
        assert events[1..][j] == events[j + 1] && events[1..][j + 1] == events[j + 2];
        assert !LostAt(events, j + 1);
      }
      AtMostOneLost(events[1..]);
      if |events| > 1 {
        assert !LostAt(events, 0);
      } else {
        assert events[1..] == [];
      }
    }
  }

  lemma {:induction false} LoopLosesNothing(plan: Plan, byKey: map<FileKey, BundleFile>, run: Snapshot, i: nat,
                                            answers: Answers)
    requires Shaped(plan, run)
    ensures LosesNothing(LoopEvents(plan, byKey, run, i, answers))
    decreases |plan.steps| - i
  {
    if i < |plan.steps| {
      if run.steps[i].status == Succeeded {
        LoopLosesNothing(plan, byKey, run, i + 1, answers);
      } else {
        var answer := AnswerOf(answers, i);
        var after := Imports(Marked(run, i), i, answer);
        AfterImport(plan, run, i, answer);
        var rest: seq<Event> := [];
        if answer.Success? {
          LoopLosesNothing(plan, byKey, after, i + 1, answers);
          rest := LoopEvents(plan, byKey, after, i + 1, answers);
        }
        NothingLost(Marked(run, i), i, FileFor(byKey, plan.steps[i]), answer.Success?, after, rest);
      }
    }
  }

  lemma NothingLost(marked: Snapshot, i: nat, file: BundleFile, ok: bool, after: Snapshot, rest: seq<Event>)
    requires ok ==> i in Done(after)
    requires LosesNothing(rest)
    ensures LosesNothing([Saved(marked), Imported(i, file, ok), Saved(after)] + rest)
  {
    var events := [Saved(marked), Imported(i, file, ok), Saved(after)] + rest;
    forall j | 0 <= j < |events| ensures !LostAt(events, j) {
      if j >= 3 {
        assert events[j] == rest[j - 3];
        assert !LostAt(rest, j - 3);
      }
    }
  }

  lemma PrefixLosesAtEnd(events: seq<Event>, n: nat)
    requires LosesNothing(events)
    ensures LosesOnlyAtEnd(UpTo(events, n))
  {
    forall j | 0 <= j < |UpTo(events, n)| - 1 ensures !LostAt(UpTo(events, n), j) {
      assert !LostAt(events, j);
    }
  }

  lemma {:induction false} LostInHistory(plan: Plan, files: seq<BundleFile>, events: seq<Event>, attempts: seq<Attempt>)
    requires WellSummarized(plan) && Numbered(plan) && Consistent(plan, events)
    ensures AllLost(History(plan, files, events, attempts)) <= AllLost(events) + |attempts|
    decreases |attempts|
  {
    if attempts != [] {
      var from, attempt := LastSaved(events), attempts[0];
      var all := AttemptEvents(plan, files, from, attempt);
      var one := UpTo(all, attempt.cut);
      AttemptKeepsConsistent(plan, files, events, attempt);
      AttemptLosesNothing(plan, files, from, attempt);
      PrefixLosesAtEnd(all, attempt.cut);
      AtMostOneLost(one);
      LostConcat(events, one);
      LostInHistory(plan, files, events + one, attempts[1..]);
    }
  }

  lemma AttemptLosesNothing(plan: Plan, files: seq<BundleFile>, from: Option<Snapshot>, attempt: Attempt)
    requires WellSummarized(plan) && Numbered(plan) && Resumable(plan, from)
    ensures LosesNothing(AttemptEvents(plan, files, from, attempt))
  {
    var run := NewResumableRun(plan, attempt.confirm, from);
    ResumeTakesOver(plan, attempt.confirm, from, run);
    var rest: seq<Event> := [];
    if attempt.confirm && plan.ready {
      LoopLosesNothing(plan, Indexed(files), run, 0, attempt.answers);
      rest := LoopEvents(plan, Indexed(files), run, 0, attempt.answers);
    }
    FirstLosesNothing(run, rest);
  }

  lemma FirstLosesNothing(run: Snapshot, rest: seq<Event>)
    requires LosesNothing(rest)
    ensures LosesNothing([Saved(run)] + rest)
  {
    var all := [Saved(run)] + rest;
    forall j | 0 <= j < |all| ensures !LostAt(all, j) {
      if j > 0 {
        assert all[j] == rest[j - 1];
        assert !LostAt(rest, j - 1);
      }
    }
  }

  /** One interruption loses at most one import, over all steps: no more imports are lost than attempts made. */
  lemma {:induction false} OneLossPerAttempt(plan: Plan, files: seq<BundleFile>, attempts: seq<Attempt>)
    requires WellSummarized(plan) && Numbered(plan)
    ensures AllLost(History(plan, files, [], attempts)) <= |attempts|
  {
    LostInHistory(plan, files, [], attempts);
  }
}
