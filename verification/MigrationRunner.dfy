// The schema migration runner: up and down runs over the sorted files, one transaction per file.
module MigrationRunner {
  import opened Options
  import opened MigrationFiles

  /** A script either fails on a schema or turns it into another one. */
  type Script<!S> = S -> Option<S>

  /** The scripts in the files, by version. */
  datatype Scripts<!S> = Scripts(up: string -> Script<S>, down: string -> Script<S>)

  datatype Direction = Up | Down

  /** What goes wrong for one file, if anything. A commit that fails may have happened all the same. */
  datatype Fault = NoFault | ReadFails | BeginFails | ExecFails | RecordFails | CommitFails | CommitUnknown

  type Faults = map<string, Fault>

  function FaultOf(faults: Faults, file: string): Fault {
    if file in faults then faults[file] else NoFault
  }

  /** The database: its schema and the versions in schema_migrations. */
  datatype Db<S> = Db(schema: S, recorded: set<string>)

  function ScriptOf<S>(scripts: Scripts<S>, direction: Direction, v: string): Script<S> {
    match direction
    case Up => scripts.up(v)
    case Down => scripts.down(v)
  }

  /** Inserting a version that is already recorded breaks the primary key; deleting one never fails. */
  function RecordAfter(direction: Direction, recorded: set<string>, v: string): Option<set<string>> {
    match direction
    case Up => if v in recorded then None else Some(recorded + {v})
    case Down => Some(recorded - {v})
  }

  /** One file in its own transaction: the database afterwards, and whether the run goes on. */
  function Step<S>(scripts: Scripts<S>, direction: Direction, db: Db<S>, v: string, fault: Fault): (Db<S>, bool) {
    if fault == ReadFails || fault == BeginFails || fault == ExecFails then (db, false)
    else match ScriptOf(scripts, direction, v)(db.schema)
         case None => (db, false)
         case Some(schema) =>
           match RecordAfter(direction, db.recorded, v)
           case None => (db, false)
           case Some(recorded) =>
             if fault == RecordFails || fault == CommitFails then (db, false)
             else (Db(schema, recorded), fault == NoFault)
  }

  /** The files that a run does not skip: not yet applied going up, applied going down. */
  predicate Chosen(direction: Direction, applied: set<string>, v: string) {
    (direction == Up) <==> v !in applied
  }

  predicate LimitReached(direction: Direction, steps: int, count: int) {
    match direction
    case Up => steps > 0 && count >= steps
    case Down => count >= steps
  }

  /** The loop over the files; `applied` was read once, before it. */
  function Loop<S>(scripts: Scripts<S>, direction: Direction, db: Db<S>, files: seq<string>, applied: set<string>,
                   steps: int, count: int, faults: Faults): (Db<S>, bool)
    decreases |files|
  {
    if files == [] then (db, true)
    else
      var v := ExtractVersion(files[0]);
      if !Chosen(direction, applied, v) then
        Loop(scripts, direction, db, files[1..], applied, steps, count, faults)
      else if LimitReached(direction, steps, count) then (db, true)
      else
        var (after, ok) := Step(scripts, direction, db, v, FaultOf(faults, files[0]));
        if !ok then (after, false)
        else Loop(scripts, direction, after, files[1..], applied, steps, count + 1, faults)
  }

  datatype Run = Run(direction: Direction, steps: int, appliedFails: bool, faults: Faults)

  function FilesFor(direction: Direction, names: seq<string>): seq<string> {
    match direction
    case Up => GetMigrationFiles(names, UP)
    case Down => Reverse(GetMigrationFiles(names, DOWN))
  }

  function StepsFor(direction: Direction, steps: int): int {
    if direction == Down && steps == 0 then 1 else steps
  }

  function RunOnce<S>(scripts: Scripts<S>, names: seq<string>, db: Db<S>, run: Run): (Db<S>, bool) {
    if run.appliedFails then (db, false)
    else Loop(scripts, run.direction, db, FilesFor(run.direction, names), db.recorded,
              StepsFor(run.direction, run.steps), 0, run.faults)
  }

  class Pool<S> {
    var schema: S
    var recorded: set<string>

    constructor (schema: S, recorded: set<string>)
      ensures this.schema == schema && this.recorded == recorded
    {
      this.schema := schema;
      this.recorded := recorded;
    }

    ghost function View(): Db<S>
      reads this
    {
      Db(schema, recorded)
    }

    method MigrateUp(scripts: Scripts<S>, names: seq<string>, steps: int, appliedFails: bool, faults: Faults)
      returns (ok: bool)
      modifies this
      ensures (View(), ok) == RunOnce(scripts, names, old(View()), Run(Up, steps, appliedFails, faults))
    {
      if appliedFails {
        return false;
      }
      var applied := recorded;
      var files := GetMigrationFiles(names, UP);
      var count := 0;
      assert files[0..] == files;
      for i := 0 to |files|
        invariant Loop(scripts, Up, old(View()), files, applied, steps, 0, faults)
               == Loop(scripts, Up, View(), files[i..], applied, steps, count, faults)
      {
        assert files[i..][0] == files[i] && files[i..][1..] == files[i + 1..];
        var file := files[i];
        var version := ExtractVersion(file);
        if version in applied {
          continue;
        }
        if steps > 0 && count >= steps {
          return true;
        }
        ok := Transact(scripts, Up, version, FaultOf(faults, file));
        if !ok {
          return false;
        }
        count := count + 1;
      }
      return true;
    }

    method MigrateDown(scripts: Scripts<S>, names: seq<string>, steps: int, appliedFails: bool, faults: Faults)
      returns (ok: bool)
      modifies this
      ensures (View(), ok) == RunOnce(scripts, names, old(View()), Run(Down, steps, appliedFails, faults))
    {
      if appliedFails {
        return false;
      }
      var applied := recorded;
      var files := Reverse(GetMigrationFiles(names, DOWN));
      var limit := if steps == 0 then 1 else steps;
      var count := 0;
      assert files[0..] == files;
      for i := 0 to |files|
        invariant Loop(scripts, Down, old(View()), files, applied, limit, 0, faults)
               == Loop(scripts, Down, View(), files[i..], applied, limit, count, faults)
      {
        assert files[i..][0] == files[i] && files[i..][1..] == files[i + 1..];
        var file := files[i];
        var version := ExtractVersion(file);
        if version !in applied {
          continue;
        }
        if count >= limit {
          return true;
        }
        ok := Transact(scripts, Down, version, FaultOf(faults, file));
        if !ok {
          return false;
        }
        count := count + 1;
      }
      return true;
    }

    /** Read, begin, execute, record, commit: the fields change only at the commit. */
    method Transact(scripts: Scripts<S>, direction: Direction, version: string, fault: Fault) returns (ok: bool)
      modifies this
      ensures (View(), ok) == Step(scripts, direction, old(View()), version, fault)
    {
      if fault == ReadFails || fault == BeginFails || fault == ExecFails {
        return false;
      }
      var executed := ScriptOf(scripts, direction, version)(schema);
      if executed.None? {
        return false;
      }
      var record := RecordAfter(direction, recorded, version);
      if record.None? || fault == RecordFails {
        return false;
      }
      if fault == CommitFails {
        return false;
      }
      schema, recorded := executed.value, record.value;
      return fault == NoFault;
    }
  }
}
