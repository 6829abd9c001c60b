// When a migration run reports success, and what it has done then.
module MigrationRunnerSuccess {
  import opened Options
  import opened MigrationFiles
  import opened MigrationRunner
  import opened MigrationRunnerLaws

  /** Nothing goes wrong with the j-th up file, and its script succeeds after those before it. */
  predicate UpFileWorks<S(==)>(scripts: Scripts<S>, initial: S, files: seq<string>, versions: seq<string>, j: nat,
                               faults: Faults)
    requires j < |versions| == |files|
  {
    FaultOf(faults, files[j]) == NoFault && Replay(scripts, initial, versions[..j + 1]).Some?
  }

  predicate UpFilesWork<S(==)>(scripts: Scripts<S>, initial: S, files: seq<string>, versions: seq<string>, from: int,
                               to: int, faults: Faults)
    requires 0 <= from && to <= |versions| == |files|
  {
    forall j :: from <= j < to ==> UpFileWorks(scripts, initial, files, versions, j, faults)
  }

  // ----- Going up -----

  lemma UpStepWorks<S(!new)>(scripts: Scripts<S>, initial: S, files: seq<string>, versions: seq<string>, db: Db<S>,
                             k: nat, faults: Faults)
    requires k < |versions| == |files| && Unique(versions) && AtPrefix(scripts, initial, versions, db, k)
    ensures Step(scripts, Up, db, versions[k], FaultOf(faults, files[k])).1
       <==> UpFileWorks(scripts, initial, files, versions, k, faults)
  {
    PrefixMembers(versions, k, k);
    LongerPrefix(versions, k);
  }

  lemma {:induction false} UpStepsWork<S(!new)>(
    scripts: Scripts<S>, initial: S, files: seq<string>, versions: seq<string>, db: Db<S>, k: nat, steps: int,
    count: nat, faults: Faults)
    requires |files| == |versions| && Unique(versions) && AtPrefix(scripts, initial, versions, db, k)
    requires count <= k && (steps <= 0 || count <= steps)
    ensures UpSteps(scripts, files, versions, db, k, steps, count, faults).1
       <==> UpFilesWork(scripts, initial, files, versions, k, UpTarget(k - count, |versions|, steps), faults)
    decreases |versions| - k
  {
    if k < |versions| && !LimitReached(Up, steps, count) {
      UpStepWorks(scripts, initial, files, versions, db, k, faults);
      StepUp(scripts, initial, versions, db, k, FaultOf(faults, files[k]));
      var stepped := Step(scripts, Up, db, versions[k], FaultOf(faults, files[k]));
      assert k < UpTarget(k - count, |versions|, steps);
      assert UpFilesWork(scripts, initial, files, versions, k, UpTarget(k - count, |versions|, steps), faults) ==>
        UpFileWorks(scripts, initial, files, versions, k, faults);
      if stepped.1 {
        UpStepsWork(scripts, initial, files, versions, stepped.0, k + 1, steps, count + 1, faults);
      }
    }
  }

  /** An up run, with whatever step count, reports success exactly when the applied versions can be read and every file
      from the first pending one to its target works; then exactly the versions up to the target are applied. */
  lemma UpSucceedsExactlyWhen<S(!new)>(
    scripts: Scripts<S>, initial: S, names: seq<string>, versions: seq<string>, db: Db<S>, k: nat, run: Run)
    requires Directory(names, versions) && AtPrefix(scripts, initial, versions, db, k) && run.direction == Up
    ensures var (after, ok) := RunOnce(scripts, names, db, run);
      && (ok <==> !run.appliedFails
                  && UpFilesWork(scripts, initial, GetMigrationFiles(names, UP), versions, k,
                                 UpTarget(k, |versions|, run.steps), run.faults))
      && (ok ==> AtPrefix(scripts, initial, versions, after, UpTarget(k, |versions|, run.steps)))
  {
    if !run.appliedFails {
      var files := GetMigrationFiles(names, UP);
      var k' := UpRunKeepsPrefix(scripts, initial, names, versions, db, k, run);
      UpRunTakesSteps(scripts, names, versions, db, k, run);
      UpStepsWork(scripts, initial, files, versions, db, k, run.steps, 0, run.faults);
    }
  }

  lemma UpRunTakesSteps<S(!new)>(
    scripts: Scripts<S>, names: seq<string>, versions: seq<string>, db: Db<S>, k: nat, run: Run)
    requires Directory(names, versions) && k <= |versions| && Recorded(db.recorded, versions[..k])
    requires run.direction == Up && !run.appliedFails
    ensures var r := UpSteps(scripts, GetMigrationFiles(names, UP), versions, db, k, run.steps, 0, run.faults);
      RunOnce(scripts, names, db, run) == (r.0, r.1)
  {
    var files := GetMigrationFiles(names, UP);
    assert files[0..] == files;
    UpSkips(scripts, files, versions, db, db.recorded, k, 0, run.steps, run.faults);
    UpLoopTakesSteps(scripts, files, versions, db, db.recorded, k, k, run.steps, 0, run.faults);
  }

  /** A file that does not work leaves the database as it is, unless only the news of its commit was lost. */
  lemma UpStepFails<S(!new)>(scripts: Scripts<S>, initial: S, files: seq<string>, versions: seq<string>, db: Db<S>,
                             j: nat, faults: Faults)
    requires j < |versions| == |files| && Unique(versions) && AtPrefix(scripts, initial, versions, db, j)
    requires !UpFileWorks(scripts, initial, files, versions, j, faults)
    ensures AtPrefix(scripts, initial, versions, Step(scripts, Up, db, versions[j], FaultOf(faults, files[j])).0,
                     AfterFailure(scripts, initial, files, versions, j, faults))
  {
    PrefixMembers(versions, j, j);
    LongerPrefix(versions, j);
  }

  /** How many versions are applied when the j-th up file ends a run. */
  function AfterFailure<S>(scripts: Scripts<S>, initial: S, files: seq<string>, versions: seq<string>, j: nat,
                           faults: Faults): nat
    requires j < |versions| == |files|
  {
    if FaultOf(faults, files[j]) == CommitUnknown && Replay(scripts, initial, versions[..j + 1]).Some? then j + 1
    else j
  }

  lemma {:induction false} UpStepsStop<S(!new)>(
    scripts: Scripts<S>, initial: S, files: seq<string>, versions: seq<string>, db: Db<S>, k: nat, steps: int,
    count: nat, faults: Faults)
    returns (j: nat)
    requires |files| == |versions| && Unique(versions) && AtPrefix(scripts, initial, versions, db, k)
    requires !UpSteps(scripts, files, versions, db, k, steps, count, faults).1
    ensures k <= j < |versions| && UpFilesWork(scripts, initial, files, versions, k, j, faults)
    ensures !UpFileWorks(scripts, initial, files, versions, j, faults)
    ensures AtPrefix(scripts, initial, versions, UpSteps(scripts, files, versions, db, k, steps, count, faults).0,
                     AfterFailure(scripts, initial, files, versions, j, faults))
    decreases |versions| - k
  {
    UpStepWorks(scripts, initial, files, versions, db, k, faults);
    var stepped := Step(scripts, Up, db, versions[k], FaultOf(faults, files[k]));
    if stepped.1 {
      StepUp(scripts, initial, versions, db, k, FaultOf(faults, files[k]));
      j := UpStepsStop(scripts, initial, files, versions, stepped.0, k + 1, steps, count + 1, faults);
    } else {
      UpStepFails(scripts, initial, files, versions, db, k, faults);
      j := k;
    }
  }

  /** An up run that fails has applied everything before the first file that does not work, and nothing more. */
  lemma UpStopsAtFirstFailure<S(!new)>(
    scripts: Scripts<S>, initial: S, names: seq<string>, versions: seq<string>, db: Db<S>, k: nat, run: Run)
    returns (j: nat)
    requires Directory(names, versions) && AtPrefix(scripts, initial, versions, db, k) && run.direction == Up
    requires !run.appliedFails && !RunOnce(scripts, names, db, run).1
    ensures var files := GetMigrationFiles(names, UP);
      && k <= j < |versions| == |files| && UpFilesWork(scripts, initial, files, versions, k, j, run.faults)
      && !UpFileWorks(scripts, initial, files, versions, j, run.faults)
      && AtPrefix(scripts, initial, versions, RunOnce(scripts, names, db, run).0,
                  AfterFailure(scripts, initial, files, versions, j, run.faults))
  {
    UpRunTakesSteps(scripts, names, versions, db, k, run);
    j := UpStepsStop(scripts, initial, GetMigrationFiles(names, UP), versions, db, k, run.steps, 0, run.faults);
  }

  // ----- Going down -----

  /** Nothing goes wrong with any of these files. */
  predicate NoFaults(files: seq<string>, from: int, to: int, faults: Faults)
    requires 0 <= from && to <= |files|
  {
    forall j :: from <= j < to ==> FaultOf(faults, files[j]) == NoFault
  }

  /** The schema after the down scripts from version k down to the target, one after the other, wherever they start. */
  function Unwound<S>(scripts: Scripts<S>, schema: S, versions: seq<string>, k: nat, target: int): Option<S>
    requires k <= |versions|
    decreases k
  {
    if k == 0 || k <= target then Some(schema)
    else
      match scripts.down(versions[k - 1])(schema)
      case None => None
      case Some(before) => Unwound(scripts, before, versions, k - 1, target)
  }

  lemma DownStepTakesOne<S(!new)>(scripts: Scripts<S>, versions: seq<string>, db: Db<S>, k: nat, fault: Fault)
    requires 0 < k <= |versions| && Unique(versions) && Recorded(db.recorded, versions[..k])
    ensures var stepped, down := Step(scripts, Down, db, versions[k - 1], fault),
                                 scripts.down(versions[k - 1])(db.schema);
      && (stepped.1 <==> fault == NoFault && down.Some?)
      && (stepped.1 ==> stepped.0.schema == down.value && Recorded(stepped.0.recorded, versions[..k - 1]))
  {
    PrefixMembers(versions, k - 1, k - 1);
    LongerPrefix(versions, k - 1);
  }

  /** A run that ends well has unwound the schema and left exactly the versions below its target. */
  ghost predicate Unwinds<S(!new)>(scripts: Scripts<S>, files: seq<string>, versions: seq<string>, db: Db<S>, k: nat,
                                   target: int, faults: Faults, after: Db<S>, ok: bool)
    requires 0 <= target <= k <= |versions| == |files|
  {
    var end := Unwound(scripts, db.schema, versions, k, target);
    && (ok <==> NoFaults(files, target, k, faults) && end.Some?)
    && (ok ==> after.schema == end.value && Recorded(after.recorded, versions[..target]))
  }

  lemma {:induction false} DownStepsUnwind<S(!new)>(
    scripts: Scripts<S>, files: seq<string>, versions: seq<string>, db: Db<S>, k: nat, limit: int, count: nat,
    faults: Faults, target: int)
    requires k <= |versions| == |files| && Unique(versions) && Recorded(db.recorded, versions[..k])
    requires 0 <= target == Left(k + count, limit) <= k
    ensures var r := DownSteps(scripts, Reverse(files), versions, db, k, limit, count, faults);
      Unwinds(scripts, files, versions, db, k, target, faults, r.0, r.1)
    decreases k
  {
    if k > 0 && !LimitReached(Down, limit, count) {
      assert Reverse(files)[|versions| - k] == files[k - 1];
      DownStepTakesOne(scripts, versions, db, k, FaultOf(faults, files[k - 1]));
      var stepped := Step(scripts, Down, db, versions[k - 1], FaultOf(faults, files[k - 1]));
      if stepped.1 {
        DownStepsUnwind(scripts, files, versions, stepped.0, k - 1, limit, count + 1, faults, target);
      }
    }
  }

  lemma DownRunTakesSteps<S(!new)>(
    scripts: Scripts<S>, names: seq<string>, versions: seq<string>, db: Db<S>, k: nat, run: Run)
    requires Directory(names, versions) && k <= |versions| && Recorded(db.recorded, versions[..k])
    requires run.direction == Down && !run.appliedFails
    ensures var r := DownSteps(scripts, Reverse(GetMigrationFiles(names, DOWN)), versions, db, k,
                               StepsFor(Down, run.steps), 0, run.faults);
      RunOnce(scripts, names, db, run) == (r.0, r.1)
  {
    var files, limit := Reverse(GetMigrationFiles(names, DOWN)), StepsFor(Down, run.steps);
    assert files[0..] == files;
    DownSkips(scripts, files, versions, db, db.recorded, k, 0, limit, run.faults);
    DownLoopTakesSteps(scripts, files, versions, db, db.recorded, k, k, limit, run.faults);
  }

  /** A down run, with whatever step count and down scripts, reports success exactly when the applied versions can be
      read, no file from the last applied one down to its target meets a fault, and their scripts succeed one after the
      other; then the schema is what they lead to and exactly the versions below the target are left. */
  lemma DownSucceedsExactlyWhen<S(!new)>(
    scripts: Scripts<S>, names: seq<string>, versions: seq<string>, db: Db<S>, k: nat, run: Run)
    requires Directory(names, versions) && k <= |versions| && Recorded(db.recorded, versions[..k])
    requires run.direction == Down
    ensures var (after, ok) := RunOnce(scripts, names, db, run);
      && 0 <= DownTarget(k, run.steps) <= k
      && (run.appliedFails ==> !ok && after == db)
      && (!run.appliedFails ==>
            Unwinds(scripts, GetMigrationFiles(names, DOWN), versions, db, k, DownTarget(k, run.steps), run.faults,
                    after, ok))
  {
    if !run.appliedFails {
      DownRunTakesSteps(scripts, names, versions, db, k, run);
      DownStepsUnwind(scripts, GetMigrationFiles(names, DOWN), versions, db, k, StepsFor(Down, run.steps), 0,
                      run.faults, DownTarget(k, run.steps));
    }
  }

  /** The default invocation on a fresh database: when nothing goes wrong and all up scripts succeed one after the
      other, the run reports success and every version is applied. */
  lemma DefaultRunAppliesAll<S(!new)>(scripts: Scripts<S>, initial: S, names: seq<string>, versions: seq<string>)
    requires Directory(names, versions) && Replay(scripts, initial, versions).Some?
    ensures RunOnce(scripts, names, Db(initial, {}), Run(Up, 0, false, map[]))
         == (Db(Replay(scripts, initial, versions).value, SetOf(versions)), true)
  {
    assert versions[..0] == [] && versions[..|versions|] == versions;
    forall j | 0 <= j < |versions|
      ensures UpFileWorks(scripts, initial, GetMigrationFiles(names, UP), versions, j, map[])
    {
      ReplayOfPrefix(scripts, initial, versions, j + 1);
    }
    UpSucceedsExactlyWhen(scripts, initial, names, versions, Db(initial, {}), 0, Run(Up, 0, false, map[]));
  }

  /** The default rollback, when something is applied, takes back exactly the last version, or fails and leaves
      everything as it is, when nothing goes wrong with that version's file. */
  lemma DefaultRollbackTakesOne<S(!new)>(
    scripts: Scripts<S>, names: seq<string>, versions: seq<string>, db: Db<S>, k: nat)
    requires Directory(names, versions) && 0 < k <= |versions| && Recorded(db.recorded, versions[..k])
    ensures RunOnce(scripts, names, db, Run(Down, 0, false, map[]))
         == match scripts.down(versions[k - 1])(db.schema)
            case None => (db, false)
            case Some(before) => (Db(before, SetOf(versions[..k - 1])), true)
  {
    var run, files := Run(Down, 0, false, map[]), Reverse(GetMigrationFiles(names, DOWN));
    DownRunTakesSteps(scripts, names, versions, db, k, run);
    DownStepTakesOne(scripts, versions, db, k, NoFault);
    var stepped := Step(scripts, Down, db, versions[k - 1], NoFault);
    assert DownSteps(scripts, files, versions, stepped.0, k - 1, 1, 1, map[]) == (stepped.0, true, k - 1);
  }
}
