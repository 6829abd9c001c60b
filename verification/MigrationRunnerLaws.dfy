// What every sequence of migration runs keeps, and which runs undo each other.
module MigrationRunnerLaws {
  import opened Options
  import opened MigrationFiles
  import opened MigrationRunner

  /** The schema after the up scripts of the versions, one after the other. */
  function Replay<S>(scripts: Scripts<S>, schema: S, versions: seq<string>): Option<S>
    decreases |versions|
  {
    if versions == [] then Some(schema)
    else
      match Replay(scripts, schema, versions[..|versions| - 1])
      case None => None
      case Some(before) => scripts.up(versions[|versions| - 1])(before)
  }

  predicate Undone<S(==)>(scripts: Scripts<S>, v: string, before: S, after: S) {
    scripts.down(v)(after).Some? ==> scripts.down(v)(after).value == before
  }

  /** The i-th down script, run on what the up scripts up to its own have made, gives back what was there before, if
      it succeeds. */
  predicate UndoneAt<S(==)>(scripts: Scripts<S>, initial: S, versions: seq<string>, i: nat)
    requires i < |versions|
  {
    match Replay(scripts, initial, versions[..i])
    case None => true
    case Some(before) =>
      match scripts.up(versions[i])(before)
      case None => true
      case Some(after) => Undone(scripts, versions[i], before, after)
  }

  /** Down scripts undo their up scripts, on the schemas that the migrations lead to. */
  predicate DownUndoesUp<S(==)>(scripts: Scripts<S>, initial: S, versions: seq<string>) {
    forall i :: 0 <= i < |versions| ==> UndoneAt(scripts, initial, versions, i)
  }

  function SetOf(versions: seq<string>): set<string> {
    set v | v in versions
  }

  predicate Recorded(recorded: set<string>, versions: seq<string>) {
    recorded == SetOf(versions)
  }

  /** The database is where the first k versions of the list take it from `initial`. */
  ghost predicate AtPrefix<S(!new)>(scripts: Scripts<S>, initial: S, versions: seq<string>, db: Db<S>, k: nat) {
    && k <= |versions|
    && Recorded(db.recorded, versions[..k])
    && Replay(scripts, initial, versions[..k]) == Some(db.schema)
  }

  /** A migrations directory whose up and down files list the same versions, each once. */
  ghost predicate Directory(names: seq<string>, versions: seq<string>) {
    && VersionsOf(GetMigrationFiles(names, UP)) == versions
    && VersionsOf(GetMigrationFiles(names, DOWN)) == versions
    && Unique(versions)
  }

  lemma PrefixMembers(versions: seq<string>, k: nat, i: nat)
    requires Unique(versions) && k <= |versions| && i < |versions|
    ensures versions[i] in versions[..k] <==> i < k
  {
    if i < k {
      assert versions[..k][i] == versions[i];
    }
  }

  lemma LongerPrefix(versions: seq<string>, k: nat)
    requires k < |versions|
    ensures versions[..k + 1] == versions[..k] + [versions[k]]
    ensures versions[..k + 1][..k] == versions[..k]
  {}

  // ----- One transaction -----

  /** Going up by the next version: either nothing happened, or the prefix is one longer. */
  lemma StepUp<S(!new)>(scripts: Scripts<S>, initial: S, versions: seq<string>, db: Db<S>, k: nat, fault: Fault)
    requires Unique(versions) && AtPrefix(scripts, initial, versions, db, k) && k < |versions|
    ensures var stepped := Step(scripts, Up, db, versions[k], fault);
      && AtPrefix(scripts, initial, versions, stepped.0, if stepped.0.recorded == db.recorded then k else k + 1)
      && (stepped.1 ==> stepped.0.recorded != db.recorded)
  {
    PrefixMembers(versions, k, k);
    LongerPrefix(versions, k);
  }

  /** Going down by the last version of the prefix: either nothing happened, or the prefix is one shorter. */
  lemma StepDown<S(!new)>(scripts: Scripts<S>, initial: S, versions: seq<string>, db: Db<S>, k: nat, fault: Fault)
    requires Unique(versions) && AtPrefix(scripts, initial, versions, db, k) && k > 0
    requires DownUndoesUp(scripts, initial, versions)
    ensures var stepped := Step(scripts, Down, db, versions[k - 1], fault);
      && AtPrefix(scripts, initial, versions, stepped.0, if stepped.0.recorded == db.recorded then k else k - 1)
      && (stepped.1 ==> stepped.0.recorded != db.recorded)
  {
    var v := versions[k - 1];
    PrefixMembers(versions, k - 1, k - 1);
    LongerPrefix(versions, k - 1);
    var before := Replay(scripts, initial, versions[..k - 1]).value;
    assert scripts.up(v)(before) == Some(db.schema);
    assert UndoneAt(scripts, initial, versions, k - 1);
    assert Undone(scripts, v, before, db.schema);
    assert v in db.recorded;
  }

  // ----- One run -----

  lemma LoopAt<S>(scripts: Scripts<S>, direction: Direction, db: Db<S>, files: seq<string>, i: nat, v: string,
                  applied: set<string>, steps: int, count: int, faults: Faults)
    requires i < |files| && ExtractVersion(files[i]) == v
    ensures Loop(scripts, direction, db, files[i..], applied, steps, count, faults)
         == if !Chosen(direction, applied, v) then
              Loop(scripts, direction, db, files[i + 1..], applied, steps, count, faults)
            else if LimitReached(direction, steps, count) then (db, true)
            else
              var (after, ok) := Step(scripts, direction, db, v, FaultOf(faults, files[i]));
              if !ok then (after, false)
              else Loop(scripts, direction, after, files[i + 1..], applied, steps, count + 1, faults)
  {
    assert files[i..][0] == files[i] && files[i..][1..] == files[i + 1..];
  }

  /** How many versions an up run that reports success has applied. */
  function UpTarget(k: int, n: int, steps: int): int {
    if steps > 0 && k + steps < n then k + steps else n
  }

  /** How many versions a down run that reports success leaves. */
  function DownTarget(k: int, steps: int): int {
    Left(k, StepsFor(Down, steps))
  }

  /** The files of a direction, by the versions they are for. */
  ghost predicate For(files: seq<string>, versions: seq<string>) {
    |files| == |versions| && forall i :: 0 <= i < |files| ==> ExtractVersion(files[i]) == versions[i]
  }

  ghost predicate ForReversed(files: seq<string>, versions: seq<string>) {
    |files| == |versions| && forall i :: 0 <= i < |files| ==> ExtractVersion(files[i]) == versions[|versions| - 1 - i]
  }

  /** The steps of an up run from k versions on: the database, whether all went well, and how many versions then. */
  function UpSteps<S>(scripts: Scripts<S>, files: seq<string>, versions: seq<string>, db: Db<S>, k: nat, steps: int,
                      count: int, faults: Faults): (Db<S>, bool, nat)
    requires |files| == |versions|
    decreases |versions| - k
  {
    if k >= |versions| || LimitReached(Up, steps, count) then (db, true, k)
    else
      var stepped := Step(scripts, Up, db, versions[k], FaultOf(faults, files[k]));
      if stepped.1 then UpSteps(scripts, files, versions, stepped.0, k + 1, steps, count + 1, faults)
      else (stepped.0, false, if stepped.0.recorded == db.recorded then k else k + 1)
  }

  lemma {:induction false} UpLoopTakesSteps<S>(
    scripts: Scripts<S>, files: seq<string>, versions: seq<string>, db: Db<S>, applied: set<string>, start: nat,
    k: nat, steps: int, count: int, faults: Faults)
    requires For(files, versions) && Unique(versions)
    requires start <= k <= |versions| && Recorded(applied, versions[..start])
    ensures var r := UpSteps(scripts, files, versions, db, k, steps, count, faults);
      Loop(scripts, Up, db, files[k..], applied, steps, count, faults) == (r.0, r.1)
    decreases |versions| - k
  {
    if k < |versions| {
      PrefixMembers(versions, start, k);
      LoopAt(scripts, Up, db, files, k, versions[k], applied, steps, count, faults);
      var stepped := Step(scripts, Up, db, versions[k], FaultOf(faults, files[k]));
      UpLoopTakesSteps(scripts, files, versions, stepped.0, applied, start, k + 1, steps, count + 1, faults);
    }
  }

  lemma {:induction false} UpStepsKeepPrefix<S(!new)>(
    scripts: Scripts<S>, initial: S, files: seq<string>, versions: seq<string>, db: Db<S>, k: nat, steps: int,
    count: nat, faults: Faults)
    requires |files| == |versions| && Unique(versions) && AtPrefix(scripts, initial, versions, db, k)
    requires count <= k && (steps <= 0 || count <= steps)
    ensures var r := UpSteps(scripts, files, versions, db, k, steps, count, faults);
      && AtPrefix(scripts, initial, versions, r.0, r.2)
      && k <= r.2 <= UpTarget(k - count, |versions|, steps)
      && (r.1 ==> r.2 == UpTarget(k - count, |versions|, steps))
    decreases |versions| - k
  {
    if k < |versions| && !LimitReached(Up, steps, count) {
      StepUp(scripts, initial, versions, db, k, FaultOf(faults, files[k]));
      var stepped := Step(scripts, Up, db, versions[k], FaultOf(faults, files[k]));
      if stepped.1 {
        UpStepsKeepPrefix(scripts, initial, files, versions, stepped.0, k + 1, steps, count + 1, faults);
      }
    }
  }

  /** The applied files come first in an up run, and are skipped. */
  lemma {:induction false} UpSkips<S(!new)>(
    scripts: Scripts<S>, files: seq<string>, versions: seq<string>, db: Db<S>, applied: set<string>,
    start: nat, i: nat, steps: int, faults: Faults)
    requires For(files, versions) && Unique(versions)
    requires i <= start <= |versions| && Recorded(applied, versions[..start])
    ensures Loop(scripts, Up, db, files[i..], applied, steps, 0, faults)
         == Loop(scripts, Up, db, files[start..], applied, steps, 0, faults)
    decreases start - i
  {
    if i < start {
      PrefixMembers(versions, start, i);
      LoopAt(scripts, Up, db, files, i, versions[i], applied, steps, 0, faults);
      UpSkips(scripts, files, versions, db, applied, start, i + 1, steps, faults);
    }
  }

  /** What a down run that may go down by `limit` leaves of k versions. */
  function Left(k: int, limit: int): int {
    if limit <= 0 then k else if limit < k then k - limit else 0
  }

  lemma DownAt<S(!new)>(
    scripts: Scripts<S>, files: seq<string>, versions: seq<string>, db: Db<S>, applied: set<string>,
    start: nat, k: nat, limit: int, faults: Faults)
    requires ForReversed(files, versions) && Unique(versions)
    requires 0 < k <= start <= |versions| && Recorded(applied, versions[..start])
    ensures Loop(scripts, Down, db, files[|versions| - k..], applied, limit, start - k, faults)
         == if LimitReached(Down, limit, start - k) then (db, true)
            else
              var stepped := Step(scripts, Down, db, versions[k - 1], FaultOf(faults, files[|versions| - k]));
              if !stepped.1 then (stepped.0, false)
              else
                Loop(scripts, Down, stepped.0, files[|versions| - (k - 1)..], applied, limit, start - (k - 1), faults)
  {
    PrefixMembers(versions, start, k - 1);
    LoopAt(scripts, Down, db, files, |versions| - k, versions[k - 1], applied, limit, start - k, faults);
  }

  /** The steps of a down run from k versions on: the database, whether all went well, and how many versions then. */
  function DownSteps<S>(scripts: Scripts<S>, files: seq<string>, versions: seq<string>, db: Db<S>, k: nat, limit: int,
                        count: int, faults: Faults): (Db<S>, bool, nat)
    requires k <= |versions| == |files|
    decreases k
  {
    if k == 0 || LimitReached(Down, limit, count) then (db, true, k)
    else
      var stepped := Step(scripts, Down, db, versions[k - 1], FaultOf(faults, files[|versions| - k]));
      if stepped.1 then DownSteps(scripts, files, versions, stepped.0, k - 1, limit, count + 1, faults)
      else (stepped.0, false, if stepped.0.recorded == db.recorded then k else k - 1)
  }

  lemma {:induction false} DownLoopTakesSteps<S(!new)>(
    scripts: Scripts<S>, files: seq<string>, versions: seq<string>, db: Db<S>, applied: set<string>, start: nat,
    k: nat, limit: int, faults: Faults)
    requires ForReversed(files, versions) && Unique(versions)
    requires k <= start <= |versions| && Recorded(applied, versions[..start])
    ensures var r := DownSteps(scripts, files, versions, db, k, limit, start - k, faults);
      Loop(scripts, Down, db, files[|versions| - k..], applied, limit, start - k, faults) == (r.0, r.1)
    decreases k
  {
    if k > 0 {
      DownAt(scripts, files, versions, db, applied, start, k, limit, faults);
      var stepped := Step(scripts, Down, db, versions[k - 1], FaultOf(faults, files[|versions| - k]));
      DownLoopTakesSteps(scripts, files, versions, stepped.0, applied, start, k - 1, limit, faults);
    }
  }

  lemma {:induction false} DownStepsKeepPrefix<S(!new)>(
    scripts: Scripts<S>, initial: S, files: seq<string>, versions: seq<string>, db: Db<S>, k: nat, limit: int,
    count: nat, faults: Faults)
    requires k <= |versions| == |files| && Unique(versions) && DownUndoesUp(scripts, initial, versions)
    requires AtPrefix(scripts, initial, versions, db, k) && Left(k + count, limit) <= k
    ensures var r := DownSteps(scripts, files, versions, db, k, limit, count, faults);
      && AtPrefix(scripts, initial, versions, r.0, r.2)
      && Left(k + count, limit) <= r.2 <= k
      && (r.1 ==> r.2 == Left(k + count, limit))
    decreases k
  {
    if k > 0 && !LimitReached(Down, limit, count) {
      StepDown(scripts, initial, versions, db, k, FaultOf(faults, files[|versions| - k]));
      var stepped := Step(scripts, Down, db, versions[k - 1], FaultOf(faults, files[|versions| - k]));
      if stepped.1 {
        DownStepsKeepPrefix(scripts, initial, files, versions, stepped.0, k - 1, limit, count + 1, faults);
      }
    }
  }

  /** The files that are not applied come first in a down run, and are skipped. */
  lemma {:induction false} DownSkips<S(!new)>(
    scripts: Scripts<S>, files: seq<string>, versions: seq<string>, db: Db<S>, applied: set<string>,
    start: nat, i: nat, limit: int, faults: Faults)
    requires ForReversed(files, versions) && Unique(versions)
    requires start <= |versions| && i <= |versions| - start && Recorded(applied, versions[..start])
    ensures Loop(scripts, Down, db, files[i..], applied, limit, 0, faults)
         == Loop(scripts, Down, db, files[|versions| - start..], applied, limit, 0, faults)
    decreases |versions| - start - i
  {
    if i < |versions| - start {
      var j := |versions| - 1 - i;
      PrefixMembers(versions, start, j);
      LoopAt(scripts, Down, db, files, i, versions[j], applied, limit, 0, faults);
      DownSkips(scripts, files, versions, db, applied, start, i + 1, limit, faults);
    }
  }

  /** How many versions are applied after a run that reports success. */
  function Target(k: int, n: int, run: Run): int {
    match run.direction
    case Up => UpTarget(k, n, run.steps)
    case Down => DownTarget(k, run.steps)
  }

  predicate Between(k: int, k': int, target: int) {
    k <= k' <= target || target <= k' <= k
  }

  lemma UpRunKeepsPrefix<S(!new)>(
    scripts: Scripts<S>, initial: S, names: seq<string>, versions: seq<string>, db: Db<S>, k: nat, run: Run)
    returns (k': nat)
    requires Directory(names, versions) && AtPrefix(scripts, initial, versions, db, k)
    requires run.direction == Up && !run.appliedFails
    ensures var (after, ok) := RunOnce(scripts, names, db, run);
      && AtPrefix(scripts, initial, versions, after, k')
      && k <= k' <= UpTarget(k, |versions|, run.steps)
      && (ok ==> k' == UpTarget(k, |versions|, run.steps))
  {
    var files := GetMigrationFiles(names, UP);
    assert files[0..] == files;
    UpSkips(scripts, files, versions, db, db.recorded, k, 0, run.steps, run.faults);
    UpLoopTakesSteps(scripts, files, versions, db, db.recorded, k, k, run.steps, 0, run.faults);
    UpStepsKeepPrefix(scripts, initial, files, versions, db, k, run.steps, 0, run.faults);
    k' := UpSteps(scripts, files, versions, db, k, run.steps, 0, run.faults).2;
  }

  lemma DownRunKeepsPrefix<S(!new)>(
    scripts: Scripts<S>, initial: S, names: seq<string>, versions: seq<string>, db: Db<S>, k: nat, run: Run)
    returns (k': nat)
    requires Directory(names, versions) && DownUndoesUp(scripts, initial, versions)
    requires AtPrefix(scripts, initial, versions, db, k)
    requires run.direction == Down && !run.appliedFails
    ensures var (after, ok) := RunOnce(scripts, names, db, run);
      && AtPrefix(scripts, initial, versions, after, k')
      && DownTarget(k, run.steps) <= k' <= k
      && (ok ==> k' == DownTarget(k, run.steps))
  {
    var files, limit := Reverse(GetMigrationFiles(names, DOWN)), StepsFor(Down, run.steps);
    assert files[0..] == files;
    DownSkips(scripts, files, versions, db, db.recorded, k, 0, limit, run.faults);
    DownLoopTakesSteps(scripts, files, versions, db, db.recorded, k, k, limit, run.faults);
    DownStepsKeepPrefix(scripts, initial, files, versions, db, k, limit, 0, run.faults);
    k' := DownSteps(scripts, files, versions, db, k, limit, 0, run.faults).2;
  }

  /** One run, whatever fails in it, moves from a prefix to a prefix, never past its target, and reaches the
      target when it reports success. */
  lemma {:induction false} RunKeepsPrefix<S(!new)>(
    scripts: Scripts<S>, initial: S, names: seq<string>, versions: seq<string>, db: Db<S>, k: nat, run: Run)
    returns (k': nat)
    requires Directory(names, versions) && DownUndoesUp(scripts, initial, versions)
    requires AtPrefix(scripts, initial, versions, db, k)
    ensures var (after, ok) := RunOnce(scripts, names, db, run);
      && AtPrefix(scripts, initial, versions, after, k')
      && Between(k, k', Target(k, |versions|, run))
      && (ok ==> k' == Target(k, |versions|, run))
  {
    if run.appliedFails {
      k' := k;
    } else if run.direction == Up {
      k' := UpRunKeepsPrefix(scripts, initial, names, versions, db, k, run);
    } else {
      k' := DownRunKeepsPrefix(scripts, initial, names, versions, db, k, run);
    }
  }

  // ----- Any sequence of runs -----

  function RunAll<S>(scripts: Scripts<S>, names: seq<string>, db: Db<S>, runs: seq<Run>): Db<S>
    decreases |runs|
  {
    if runs == [] then db else RunAll(scripts, names, RunOnce(scripts, names, db, runs[0]).0, runs[1..])
  }

  /** After any sequence of up and down runs on a fresh database, with any step counts and any failures, the
      recorded versions are a prefix of the sorted versions, and the schema is the initial one with exactly the
      recorded versions' up scripts replayed in file order. */
  lemma {:induction false} RunsKeepSchemaAndRecordTogether<S(!new)>(
    scripts: Scripts<S>, initial: S, names: seq<string>, versions: seq<string>, runs: seq<Run>) returns (k: nat)
    requires Directory(names, versions) && DownUndoesUp(scripts, initial, versions)
    ensures AtPrefix(scripts, initial, versions, RunAll(scripts, names, Db(initial, {}), runs), k)
  {
    assert versions[..0] == [];
    k := RunsFromPrefix(scripts, initial, names, versions, Db(initial, {}), 0, runs);
  }

  lemma {:induction false} RunsFromPrefix<S(!new)>(
    scripts: Scripts<S>, initial: S, names: seq<string>, versions: seq<string>, db: Db<S>, k: nat, runs: seq<Run>)
    returns (k': nat)
    requires Directory(names, versions) && DownUndoesUp(scripts, initial, versions)
    requires AtPrefix(scripts, initial, versions, db, k)
    ensures AtPrefix(scripts, initial, versions, RunAll(scripts, names, db, runs), k')
    decreases |runs|
  {
    k' := k;
    if runs != [] {
      k' := RunKeepsPrefix(scripts, initial, names, versions, db, k, runs[0]);
      k' := RunsFromPrefix(scripts, initial, names, versions, RunOnce(scripts, names, db, runs[0]).0, k', runs[1..]);
    }
  }

  // ----- What runs need of the scripts -----

  /** Schema and records belong together. */
  ghost predicate Together<S(!new)>(scripts: Scripts<S>, initial: S, versions: seq<string>, db: Db<S>) {
    exists k: nat :: AtPrefix(scripts, initial, versions, db, k)
  }

  lemma {:induction false} ReplayOfPrefix<S>(scripts: Scripts<S>, initial: S, versions: seq<string>, k: nat)
    requires k <= |versions| && Replay(scripts, initial, versions).Some?
    ensures Replay(scripts, initial, versions[..k]).Some?
    decreases |versions|
  {
    if k == |versions| {
      assert versions[..k] == versions;
    } else {
      assert versions[..|versions| - 1][..k] == versions[..k];
      ReplayOfPrefix(scripts, initial, versions[..|versions| - 1], k);
    }
  }

  /** When nothing fails and the scripts succeed, the steps of an up run by m versions go well. */
  lemma {:induction false} UpSucceeds<S(!new)>(
    scripts: Scripts<S>, initial: S, files: seq<string>, versions: seq<string>, db: Db<S>, k: nat, m: nat)
    requires |files| == |versions| && Unique(versions) && AtPrefix(scripts, initial, versions, db, k)
    requires k <= m <= |versions| && 0 < m && Replay(scripts, initial, versions[..m]).Some?
    ensures UpSteps(scripts, files, versions, db, k, m, k, map[]).1
    decreases m - k
  {
    if k < m {
      ReplayOfPrefix(scripts, initial, versions[..m], k + 1);
      assert versions[..m][..k + 1] == versions[..k + 1];
      LongerPrefix(versions, k);
      PrefixMembers(versions, k, k);
      StepUp(scripts, initial, versions, db, k, NoFault);
      UpSucceeds(scripts, initial, files, versions, Step(scripts, Up, db, versions[k], NoFault).0, k + 1, m);
    }
  }

  /** With a limit of one, the loop going down takes one step. */
  lemma DownLoopOne<S(!new)>(
    scripts: Scripts<S>, files: seq<string>, versions: seq<string>, db: Db<S>, applied: set<string>, k: nat)
    requires ForReversed(files, versions) && Unique(versions)
    requires 0 < k <= |versions| && Recorded(applied, versions[..k])
    ensures Loop(scripts, Down, db, files[|versions| - k..], applied, 1, 0, map[]).0
         == Step(scripts, Down, db, versions[k - 1], NoFault).0
  {
    DownAt(scripts, files, versions, db, applied, k, k, 1, map[]);
    if k > 1 {
      var after := Step(scripts, Down, db, versions[k - 1], NoFault).0;
      DownAt(scripts, files, versions, after, applied, k, k - 1, 1, map[]);
    }
  }

  /** A single step down, when nothing fails. */
  lemma DownOne<S(!new)>(
    scripts: Scripts<S>, initial: S, names: seq<string>, versions: seq<string>, db: Db<S>, k: nat)
    requires Directory(names, versions) && AtPrefix(scripts, initial, versions, db, k) && 0 < k
    ensures RunOnce(scripts, names, db, Run(Down, 1, false, map[])).0
         == Step(scripts, Down, db, versions[k - 1], NoFault).0
  {
    var files := Reverse(GetMigrationFiles(names, DOWN));
    assert files[0..] == files;
    DownSkips(scripts, files, versions, db, db.recorded, k, 0, 1, map[]);
    DownLoopOne(scripts, files, versions, db, db.recorded, k);
  }

  lemma WithoutLast(versions: seq<string>, i: nat)
    requires Unique(versions) && i < |versions|
    ensures SetOf(versions[..i + 1]) - {versions[i]} == SetOf(versions[..i])
  {
    LongerPrefix(versions, i);
    PrefixMembers(versions, i, i);
  }

  /** The up run that ends with the i-th version. */
  lemma UpTo<S(!new)>(scripts: Scripts<S>, initial: S, names: seq<string>, versions: seq<string>, i: nat)
    requires Directory(names, versions) && i < |versions|
    requires Replay(scripts, initial, versions[..i + 1]).Some?
    ensures AtPrefix(scripts, initial, versions,
                     RunOnce(scripts, names, Db(initial, {}), Run(Up, i + 1, false, map[])).0, i + 1)
  {
    var files, empty := GetMigrationFiles(names, UP), Db(initial, {});
    assert files[0..] == files && versions[..0] == [];
    UpSucceeds(scripts, initial, files, versions, empty, 0, i + 1);
    UpLoopTakesSteps(scripts, files, versions, empty, {}, 0, 0, i + 1, 0, map[]);
    var k := UpRunKeepsPrefix(scripts, initial, names, versions, empty, 0, Run(Up, i + 1, false, map[]));
  }

  lemma ApartAfterStep<S(!new)>(scripts: Scripts<S>, initial: S, versions: seq<string>, top: Db<S>, i: nat)
    requires Unique(versions) && i < |versions| && !UndoneAt(scripts, initial, versions, i)
    requires AtPrefix(scripts, initial, versions, top, i + 1)
    ensures !Together(scripts, initial, versions, Step(scripts, Down, top, versions[i], NoFault).0)
  {
    LongerPrefix(versions, i);
    WithoutLast(versions, i);
    var end := Step(scripts, Down, top, versions[i], NoFault).0;
    forall k: nat ensures !AtPrefix(scripts, initial, versions, end, k) {
      if AtPrefix(scripts, initial, versions, end, k) {
        SamePrefix(versions, k, i);
      }
    }
  }

  /** A down script that does not undo its up script takes schema and records apart. */
  lemma BadDownScriptTakesApart<S(!new)>(
    scripts: Scripts<S>, initial: S, names: seq<string>, versions: seq<string>, i: nat) returns (runs: seq<Run>)
    requires Directory(names, versions) && i < |versions| && !UndoneAt(scripts, initial, versions, i)
    ensures !Together(scripts, initial, versions, RunAll(scripts, names, Db(initial, {}), runs))
  {
    var empty, up, down := Db(initial, {}), Run(Up, i + 1, false, map[]), Run(Down, 1, false, map[]);
    runs := [up, down];
    LongerPrefix(versions, i);
    UpTo(scripts, initial, names, versions, i);
    var top := RunOnce(scripts, names, empty, up).0;
    DownOne(scripts, initial, names, versions, top, i + 1);
    ApartAfterStep(scripts, initial, versions, top, i);
    TwoRuns(scripts, names, empty, up, down);
  }

  lemma TwoRuns<S>(scripts: Scripts<S>, names: seq<string>, db: Db<S>, first: Run, second: Run)
    ensures RunAll(scripts, names, db, [first, second])
         == RunOnce(scripts, names, RunOnce(scripts, names, db, first).0, second).0
  {
    assert [first, second][1..] == [second] && [second][1..] == [];
    var between := RunOnce(scripts, names, db, first).0;
    assert RunAll(scripts, names, between, [second]) == RunOnce(scripts, names, between, second).0;
  }

  /** Every sequence of runs keeps schema and records together exactly when the down scripts undo their up scripts. */
  lemma RunsKeepTogetherExactlyWhen<S(!new)>(
    scripts: Scripts<S>, initial: S, names: seq<string>, versions: seq<string>)
    requires Directory(names, versions)
    ensures (forall runs :: Together(scripts, initial, versions, RunAll(scripts, names, Db(initial, {}), runs)))
       <==> DownUndoesUp(scripts, initial, versions)
  {
    if DownUndoesUp(scripts, initial, versions) {
      forall runs ensures Together(scripts, initial, versions, RunAll(scripts, names, Db(initial, {}), runs)) {
        var k := RunsKeepSchemaAndRecordTogether(scripts, initial, names, versions, runs);
      }
    } else {
      var i :| 0 <= i < |versions| && !UndoneAt(scripts, initial, versions, i);
      var runs := BadDownScriptTakesApart(scripts, initial, names, versions, i);
    }
  }

  /** A directory of paired files with dot-free version names is one. */
  lemma PairedFilesAreADirectory(names: seq<string>, versions: seq<string>)
    requires Paired(names, versions) && forall v :: v in versions ==> '.' !in v
    ensures Directory(names, VersionsOf(GetMigrationFiles(names, UP)))
  {
    DotFreeVersionsAgree(names, versions);
    var files := GetMigrationFiles(names, UP);
    var listed := VersionsOf(files);
    FilesOfVersions(names, versions, UP);
    FilesAreSorted(names, UP);
    forall i, j | 0 <= i < j < |listed| ensures listed[i] != listed[j] {
      assert Less(files[i], files[j]);
      LessIsTotal(files[i], files[j]);
      assert files[i] == listed[i] + UP && files[j] == listed[j] + UP;
    }
  }

  // ----- Up, then down -----

  /** When running up and then down with the same step count ends where it began: the count must be positive and
      not beyond what is pending (or the start empty); the two default counts of zero, all up and one down, cancel
      only when one version was pending (or nothing exists); a negative count goes all the way up and not down. */
  predicate Cancels(k: nat, n: nat, steps: int) {
    if steps > 0 then steps <= n - k || k == 0
    else if steps == 0 then n - k == 1 || n == 0
    else n == k
  }

  /** Up and down with the same step count, both reporting success, restore schema and records if, and as far as
      records are concerned only if, the counts cancel. */
  lemma {:induction false} UpThenDown<S(!new)>(
    scripts: Scripts<S>, initial: S, names: seq<string>, versions: seq<string>, db: Db<S>, k: nat, steps: int,
    up: Run, down: Run)
    requires Directory(names, versions) && DownUndoesUp(scripts, initial, versions)
    requires AtPrefix(scripts, initial, versions, db, k)
    requires up.direction == Up && down.direction == Down && up.steps == down.steps == steps
    requires RunOnce(scripts, names, db, up).1
    requires RunOnce(scripts, names, RunOnce(scripts, names, db, up).0, down).1
    ensures var end := RunOnce(scripts, names, RunOnce(scripts, names, db, up).0, down).0;
      && (end.recorded == db.recorded <==> Cancels(k, |versions|, steps))
      && (Cancels(k, |versions|, steps) ==> end == db)
  {
    var top := RunKeepsPrefix(scripts, initial, names, versions, db, k, up);
    var upped := RunOnce(scripts, names, db, up).0;
    var end := RunKeepsPrefix(scripts, initial, names, versions, upped, top, down);
    SamePrefix(versions, k, end);
  }

  lemma SamePrefix(versions: seq<string>, j: nat, k: nat)
    requires Unique(versions) && j <= |versions| && k <= |versions|
    ensures SetOf(versions[..j]) == SetOf(versions[..k]) <==> j == k
  {
    if j != k {
      var least := if j < k then j else k;
      PrefixMembers(versions, j, least);
      PrefixMembers(versions, k, least);
      assert versions[least] in SetOf(versions[..j]) <==> least < j;
      assert versions[least] in SetOf(versions[..k]) <==> least < k;
    }
  }
}
