/**
  The schema migration of the intelligence store (`initialize_schema` and
  `migrate_v1` to `migrate_v4`, src-tauri/src/intelligence/store.rs). Statements
  are atomic; a crash may fall between any two of them. Row ids and the times at
  which rows are written are left out.
*/
module Migration {

  import opened Wrappers

  datatype Table =
    | SchemaVersion
    | ParameterHotspots
    | HistoricalBenchmarks
    | QueryExecutedEvents
    | VisualizationViewedEvents
    | Benchmarks
    | QueryEventTables
    | SecurityAuditEvents

  /** A row of `historical_benchmarks`; numbers as SQLite writes them. */
  datatype Legacy = Legacy(id: string, parameterName: string, metricType: string, metricValue: string,
                           contextJson: string, createdAt: string)

  datatype Context = Context(version: int, dbPath: string, rowCount: int, columnCount: int, tableName: string,
      notes: string)

  datatype Benchmark = Benchmark(queryId: string, context: Context, contextVersion: int, tableName: string,
      timestamp: string)

  datatype Event = Event(queryId: string, sourceTable: Option<string>)

  datatype Lineage = Lineage(queryId: string, tableName: string)

  datatype Db = Db(tables: set<Table>, indexes: set<string>, versions: seq<int>, legacy: seq<Legacy>,
                   benchmarks: seq<Benchmark>, events: seq<Event>, lineage: set<Lineage>)

  const CURRENT_SCHEMA_VERSION := 4

  // ----- statements -----

  datatype Statement =
    | CreateTable(table: Table)
    | CreateIndex(name: string, on: Table)
    | CopyLegacy
    | CopyLineage
    | RecordVersion(version: int)
    | Unsupported

  /** A table just created is empty. */
  function Created(db: Db, t: Table): Db {
    var more := db.(tables := db.tables + {t});
    match t
    case SchemaVersion => more.(versions := [])
    case HistoricalBenchmarks => more.(legacy := [])
    case Benchmarks => more.(benchmarks := [])
    case QueryExecutedEvents => more.(events := [])
    case QueryEventTables => more.(lineage := {})
    case _ => more
  }

  function AsBenchmark(l: Legacy): Benchmark {
    Benchmark("legacy-" + l.id,
              Context(1, "", 0, 0, l.parameterName,
                      "legacy_metric:" + l.metricType + "=" + l.metricValue + "; legacy_context=" + l.contextJson),
              1, l.parameterName, l.createdAt)
  }

  function Converted(legacy: seq<Legacy>): (bs: seq<Benchmark>)
    ensures |bs| == |legacy|
  {
    seq(|legacy|, i requires 0 <= i < |legacy| => AsBenchmark(legacy[i]))
  }

  /** A source table that names one table: not blank, and without a comma. */
  predicate NamesOneTable(name: string) {
    (exists i :: 0 <= i < |name| && name[i] != ' ') && ',' !in name
  }

  function LineageOf(events: seq<Event>): set<Lineage> {
    set e | e in events && e.sourceTable.Some? && NamesOneTable(e.sourceTable.value)
      :: Lineage(e.queryId, e.sourceTable.value)
  }

  /** One statement: the database after it, or None when it fails. */
  function Exec(db: Db, s: Statement): Option<Db> {
    match s
    case CreateTable(t) => Some(if t in db.tables then db else Created(db, t))
    case CreateIndex(name, t) =>
      if t in db.tables then Some(db.(indexes := db.indexes + {name})) else None
    case CopyLegacy =>
      if HistoricalBenchmarks !in db.tables || Benchmarks !in db.tables then None
      else if db.benchmarks == [] then Some(db.(benchmarks := Converted(db.legacy)))
      else Some(db)
    case CopyLineage =>
      if QueryExecutedEvents !in db.tables || QueryEventTables !in db.tables then None
      else Some(db.(lineage := db.lineage + LineageOf(db.events)))
    case RecordVersion(v) =>
      if SchemaVersion !in db.tables then None
      else if v in db.versions then Some(db)
      else Some(db.(versions := db.versions + [v]))
    case Unsupported => None
  }

  /** A statement fails exactly when a table it speaks of is missing, or its migration
      does not exist. */
  lemma FailsIff(db: Db, s: Statement)
    ensures Exec(db, s) == None <==>
            || (s.CreateIndex? && s.on !in db.tables)
            || (s == CopyLegacy && !({HistoricalBenchmarks, Benchmarks} <= db.tables))
            || (s == CopyLineage && !({QueryExecutedEvents, QueryEventTables} <= db.tables))
            || (s.RecordVersion? && SchemaVersion !in db.tables)
            || s == Unsupported
  {
  }

  /** The statements of `migrate_v1` to `migrate_v4`. */
  function Migrate(version: int): seq<Statement> {
    if version == 1 then
      [CreateTable(ParameterHotspots),
       CreateIndex("idx_parameter_hotspots_connection_hits", ParameterHotspots),
       CreateIndex("idx_parameter_hotspots_last_observed", ParameterHotspots),
       CreateTable(HistoricalBenchmarks),
       CreateIndex("idx_historical_benchmarks_parameter_metric_created", HistoricalBenchmarks),
       CreateIndex("idx_historical_benchmarks_created", HistoricalBenchmarks),
       RecordVersion(1)]
    else if version == 2 then
      [CreateTable(QueryExecutedEvents),
       CreateTable(VisualizationViewedEvents),
       CreateTable(Benchmarks),
       CreateIndex("idx_context_table_version", Benchmarks),
       CopyLegacy,
       RecordVersion(2)]
    else if version == 3 then
      [CreateTable(QueryEventTables),
       CreateIndex("idx_query_event_tables_table_name", QueryEventTables),
       CopyLineage,
       RecordVersion(3)]
    else if version == 4 then
      [CreateTable(SecurityAuditEvents),
       CreateIndex("idx_security_audit_events_created_at", SecurityAuditEvents),
       CreateIndex("idx_security_audit_events_type_outcome", SecurityAuditEvents),
       RecordVersion(4)]
    else
      [Unsupported]
  }

  function MaxOf(versions: seq<int>): int
    requires versions != []
  {
    if |versions| == 1 then versions[0]
    else
      var most, last := MaxOf(versions[..|versions| - 1]), versions[|versions| - 1];
      if last > most then last else most
  }

  /** `SELECT MAX(version)`, 0 when there is none. */
  function CurrentVersion(db: Db): int {
    var versions := if SchemaVersion in db.tables then db.versions else [];
    if versions == [] then 0 else MaxOf(versions)
  }

  /** What the migration loop has left to run from version `c` on. */
  function Remaining(c: int): seq<Statement>
    decreases CURRENT_SCHEMA_VERSION - c
  {
    if c >= CURRENT_SCHEMA_VERSION then [] else Migrate(c + 1) + Remaining(c + 1)
  }

  function Program(db: Db): seq<Statement> {
    [CreateTable(SchemaVersion)] + Remaining(CurrentVersion(db))
  }

  // ----- runs that may crash -----

  datatype Outcome = Done | Failed | Crashed

  datatype End = End(db: Db, outcome: Outcome, budget: nat)

  /** Runs statements in order until one fails or the budget of statements before
      the crash is used up. */
  function Steps(db: Db, ss: seq<Statement>, budget: nat): End
    decreases |ss|
  {
    if ss == [] then End(db, Done, budget)
    else if budget == 0 then End(db, Crashed, 0)
    else match Exec(db, ss[0])
      case None => End(db, Failed, budget - 1)
      case Some(next) => Steps(next, ss[1..], budget - 1)
  }

  /** The same without a crash. */
  function All(db: Db, ss: seq<Statement>): End
    decreases |ss|
  {
    if ss == [] then End(db, Done, 0)
    else match Exec(db, ss[0])
      case None => End(db, Failed, 0)
      case Some(next) => All(next, ss[1..])
  }

  function Start(db: Db, budget: nat): End {
    Steps(db, Program(db), budget)
  }

  function StartUndisturbed(db: Db): End {
    All(db, Program(db))
  }

  /** One start after another, each with its own point of crash. */
  function Starts(db: Db, budgets: seq<nat>): Db {
    if budgets == [] then db else Start(Starts(db, budgets[..|budgets| - 1]), budgets[|budgets| - 1]).db
  }

  // ----- the code -----

  /** The store over a database that may be taken away after `budget` statements. */
  class Store {
    var db: Db
    var budget: nat

    constructor (db: Db, budget: nat)
      ensures this.db == db && this.budget == budget
    {
      this.db := db;
      this.budget := budget;
    }

    method Execute(s: Statement) returns (outcome: Outcome)
      modifies this
      ensures End(db, outcome, budget) == Steps(old(db), [s], old(budget))
    {
      if budget == 0 {
        outcome := Crashed;
      } else {
        budget := budget - 1;
        var next := Exec(db, s);
        if next.None? {
          outcome := Failed;
        } else {
          db := next.value;
          outcome := Done;
        }
      }
    }

    /** The statements of one migration, each awaited in turn. */
    method ExecuteAll(ss: seq<Statement>) returns (outcome: Outcome)
      modifies this
      ensures End(db, outcome, budget) == Steps(old(db), ss, old(budget))
    {
      outcome := Done;
      ghost var rest := ss;
      for i := 0 to |ss|
        invariant rest == ss[i..]
        invariant outcome == Done && Steps(db, rest, budget) == Steps(old(db), ss, old(budget))
      {
        outcome := Execute(ss[i]);
        rest := rest[1..];
        if outcome != Done {
          break;
        }
      }
    }

    /** `initialize_schema`. */
    method InitializeSchema() returns (outcome: Outcome)
      modifies this
      ensures End(db, outcome, budget) == Start(old(db), old(budget))
    {
      hide Steps, Migrate, Exec;
      CreationKeepsVersion(db, budget);
      StepsAppend(db, [CreateTable(SchemaVersion)], Remaining(CurrentVersion(db)), budget);
      outcome := Execute(CreateTable(SchemaVersion));
      if outcome == Done {
        var currentVersion := CurrentVersion(db);
        while currentVersion < CURRENT_SCHEMA_VERSION
          invariant Steps(db, Remaining(currentVersion), budget) == Start(old(db), old(budget))
          invariant outcome == Done
          decreases CURRENT_SCHEMA_VERSION - currentVersion
        {
          currentVersion := currentVersion + 1;
          StepsAppend(db, Migrate(currentVersion), Remaining(currentVersion), budget);
          outcome := ExecuteAll(Migrate(currentVersion));
          if outcome != Done {
            break;
          }
        }
        StepsOfNone(db, budget);
      }
    }
  }

  lemma StepsOfNone(db: Db, budget: nat)
    ensures Steps(db, [], budget) == End(db, Done, budget)
  {
  }

  lemma {:induction false} StepsAppend(db: Db, ss: seq<Statement>, tt: seq<Statement>, budget: nat)
    ensures var mid := Steps(db, ss, budget);
            Steps(db, ss + tt, budget) == if mid.outcome == Done then Steps(mid.db, tt, mid.budget) else mid
    decreases |ss|
  {
    if ss == [] {
      assert ss + tt == tt;
    } else {
      assert (ss + tt)[1..] == ss[1..] + tt;
      if budget > 0 && Exec(db, ss[0]).Some? {
        StepsAppend(Exec(db, ss[0]).value, ss[1..], tt, budget - 1);
      }
    }
  }

  lemma CreationKeepsVersion(db: Db, budget: nat)
    ensures var end := Steps(db, [CreateTable(SchemaVersion)], budget);
            end.outcome == Done ==> CurrentVersion(end.db) == CurrentVersion(db)
  {
  }

  // ----- statements done twice -----

  /** Running the statement again changes nothing. */
  ghost predicate Settled(db: Db, s: Statement) {
    Exec(db, s) == Some(db)
  }

  lemma SettledOnceRun(db: Db, s: Statement)
    ensures var next := Exec(db, s); next.Some? ==> Settled(next.value, s)
  {
    if s.CopyLegacy? && Exec(db, s).Some? && db.benchmarks == [] {
      assert Converted(db.legacy) == [] ==> db.legacy == [];
    }
  }

  /** No later statement unsettles one that is settled. */
  lemma SettledStays(db: Db, s: Statement, later: Statement)
    requires Settled(db, s)
    ensures var next := Exec(db, later); next.Some? ==> Settled(next.value, s)
  {
    hide LineageOf, AsBenchmark;
    var next := Exec(db, later);
    if next.Some? {
      match s
      case CreateIndex(name, _) =>
        assert name in db.indexes + {name} && next.value.indexes + {name} == next.value.indexes;
      case CopyLineage =>
        assert LineageOf(db.events) <= db.lineage + LineageOf(db.events);
        assert next.value.lineage + LineageOf(next.value.events) == next.value.lineage;
      case CopyLegacy =>
        assert db.benchmarks == [] ==> Converted(db.legacy) == [] && db.legacy == [];
      case _ =>
    }
  }

  /** After a run of statements each of them is settled. */
  lemma {:induction false} AllSettled(db: Db, ss: seq<Statement>, budget: nat, s: Statement)
    requires Steps(db, ss, budget).outcome == Done && (s in ss || Settled(db, s))
    ensures Settled(Steps(db, ss, budget).db, s)
    decreases |ss|
  {
    hide Exec;
    if ss != [] {
      var next := Exec(db, ss[0]).value;
      SettledOnceRun(db, ss[0]);
      if Settled(db, s) {
        SettledStays(db, s, ss[0]);
      }
      AllSettled(next, ss[1..], budget - 1, s);
    }
  }

  lemma {:induction false} SkipSettled(db: Db, ss: seq<Statement>, rest: seq<Statement>)
    requires forall s :: s in ss ==> Settled(db, s)
    ensures All(db, ss + rest) == All(db, rest)
    decreases |ss|
  {
    hide Exec;
    if ss == [] {
      assert ss + rest == rest;
    } else {
      assert Settled(db, ss[0]) && (ss + rest)[1..] == ss[1..] + rest;
      SkipSettled(db, ss[1..], rest);
    }
  }

  lemma {:induction false} AllAfterSteps(db: Db, ss: seq<Statement>, rest: seq<Statement>, budget: nat)
    requires Steps(db, ss, budget).outcome == Done
    ensures All(db, ss + rest) == All(Steps(db, ss, budget).db, rest)
    decreases |ss|
  {
    hide Exec;
    if ss == [] {
      assert ss + rest == rest;
    } else {
      assert (ss + rest)[1..] == ss[1..] + rest;
      AllAfterSteps(Exec(db, ss[0]).value, ss[1..], rest, budget - 1);
    }
  }

  /** However a run stops, it has done some first part of its statements, all of them settled. */
  lemma {:induction false} StepsDoPrefix(db: Db, ss: seq<Statement>, budget: nat) returns (n: nat)
    ensures n <= |ss| && Steps(db, ss[..n], n).outcome == Done && Steps(db, ss[..n], n).db == Steps(db, ss, budget).db
    ensures n == |ss| <==> Steps(db, ss, budget).outcome == Done
    decreases |ss|
  {
    hide Exec;
    n := 0;
    if ss != [] && budget > 0 && Exec(db, ss[0]).Some? {
      var m := StepsDoPrefix(Exec(db, ss[0]).value, ss[1..], budget - 1);
      n := m + 1;
      assert ss[..n][1..] == ss[1..][..m];
    }
  }

  /** Running all the statements again after a partial run ends where one run would. */
  lemma RunAgain(db: Db, ss: seq<Statement>, budget: nat, rest: seq<Statement>)
    ensures All(Steps(db, ss, budget).db, ss + rest) == All(db, ss + rest)
  {
    hide Steps, All, Settled;
    var n := StepsDoPrefix(db, ss, budget);
    var mid := Steps(db, ss, budget).db;
    forall s | s in ss[..n]
      ensures Settled(mid, s)
    {
      AllSettled(db, ss[..n], n, s);
    }
    assert ss + rest == ss[..n] + (ss[n..] + rest);
    SkipSettled(mid, ss[..n], ss[n..] + rest);
    AllAfterSteps(db, ss[..n], ss[n..] + rest, n);
  }

  // ----- crash and restart -----

  lemma MaxPushed(versions: seq<int>, v: int)
    requires versions == [] || MaxOf(versions) < v
    ensures MaxOf(versions + [v]) == v
  {
    assert (versions + [v])[..|versions|] == versions;
  }

  lemma {:induction false} MaxBounds(versions: seq<int>, v: int)
    requires v in versions
    ensures v <= MaxOf(versions)
  {
    if |versions| > 1 && v in versions[..|versions| - 1] {
      MaxBounds(versions[..|versions| - 1], v);
    }
  }

  predicate Ready(db: Db, c: int) {
    SchemaVersion in db.tables && CurrentVersion(db) == c
  }

  predicate Quiet(s: Statement) {
    !s.RecordVersion?
  }

  /** Only recording a version changes the current one. */
  lemma {:induction false} QuietSteps(db: Db, ss: seq<Statement>, budget: nat, c: int)
    requires Ready(db, c) && forall s :: s in ss ==> Quiet(s)
    ensures Ready(Steps(db, ss, budget).db, c)
    decreases |ss|
  {
    if ss != [] && budget > 0 && Exec(db, ss[0]).Some? {
      assert Quiet(ss[0]);
      assert Ready(Exec(db, ss[0]).value, c);
      QuietSteps(Exec(db, ss[0]).value, ss[1..], budget - 1, c);
    }
  }

  lemma MigrateShape(v: int)
    requires 1 <= v <= CURRENT_SCHEMA_VERSION
    ensures var ss := Migrate(v);
            ss != [] && ss[|ss| - 1] == RecordVersion(v) && forall s :: s in ss[..|ss| - 1] ==> Quiet(s)
  {
  }

  /** A migration records its version last: it has either not moved the current
      version or is complete. */
  lemma MigrationSteps(db: Db, c: int, budget: nat)
    requires Ready(db, c) && c < CURRENT_SCHEMA_VERSION
    ensures var end := Steps(db, Migrate(c + 1), budget);
            Ready(end.db, if end.outcome == Done then c + 1 else c)
  {
    if c < 0 {
    } else {
      MigrateShape(c + 1);
      RecordLast(db, Migrate(c + 1), c, budget);
    }
  }

  lemma RecordLast(db: Db, ss: seq<Statement>, c: int, budget: nat)
    requires ss != [] && ss[|ss| - 1] == RecordVersion(c + 1) && forall s :: s in ss[..|ss| - 1] ==> Quiet(s)
    requires Ready(db, c) && c >= 0
    ensures var end := Steps(db, ss, budget);
            Ready(end.db, if end.outcome == Done then c + 1 else c)
  {
    hide Quiet, MaxOf;
    var init := ss[..|ss| - 1];
    assert ss == init + [ss[|ss| - 1]];
    QuietSteps(db, init, budget, c);
    StepsAppend(db, init, [RecordVersion(c + 1)], budget);
    var mid := Steps(db, init, budget).db;
    if mid.versions != [] {
      if c + 1 in mid.versions {
        MaxBounds(mid.versions, c + 1);
      }
    }
    MaxPushed(mid.versions, c + 1);
  }

  /** A crash anywhere in the migration loop, then an undisturbed start. */
  lemma {:induction false} LoopResumes(db: Db, c: int, budget: nat)
    requires Ready(db, c)
    ensures All(Steps(db, Remaining(c), budget).db, Program(Steps(db, Remaining(c), budget).db))
        == All(db, Remaining(c))
    decreases CURRENT_SCHEMA_VERSION - c
  {
    hide Migrate, Steps, All, CurrentVersion;
    if c >= CURRENT_SCHEMA_VERSION {
      StepsOfNone(db, budget);
      CreateAgain(db, Remaining(c));
    } else {
      var ss, rest := Migrate(c + 1), Remaining(c + 1);
      StepsAppend(db, ss, rest, budget);
      MigrationSteps(db, c, budget);
      var end := Steps(db, ss, budget);
      if end.outcome == Done {
        LoopResumes(end.db, c + 1, end.budget);
        AllAfterSteps(db, ss, rest, budget);
      } else {
        CreateAgain(end.db, Remaining(c));
        RunAgain(db, ss, budget, rest);
      }
    }
  }

  lemma CreateAgain(db: Db, rest: seq<Statement>)
    requires SchemaVersion in db.tables
    ensures All(db, [CreateTable(SchemaVersion)] + rest) == All(db, rest)
  {
    assert ([CreateTable(SchemaVersion)] + rest)[1..] == rest;
  }

  /** A crash at any statement boundary, then an undisturbed start: the same
      database and the same outcome as one undisturbed start. */
  lemma CrashThenStart(db: Db, budget: nat)
    ensures StartUndisturbed(Start(db, budget).db) == StartUndisturbed(db)
  {
    hide Migrate, Steps, All, Remaining, CurrentVersion;
    var create := CreateTable(SchemaVersion);
    var c := CurrentVersion(db);
    StepsAppend(db, [create], Remaining(c), budget);
    FirstStatement(db, budget);
    if budget > 0 {
      var created := Exec(db, create).value;
      CreationKeepsVersion(db, budget);
      LoopResumes(created, c, budget - 1);
      AllAfterSteps(db, [create], Remaining(c), budget);
    }
  }

  lemma FirstStatement(db: Db, budget: nat)
    ensures Steps(db, [CreateTable(SchemaVersion)], budget)
         == if budget == 0 then End(db, Crashed, 0)
            else End(Exec(db, CreateTable(SchemaVersion)).value, Done, budget - 1)
  {
    assert [CreateTable(SchemaVersion)][1..] == [];
  }

  /** Any number of crashes, anywhere, make no difference to where the migration ends. */
  lemma {:induction false} AnyCrashes(db: Db, budgets: seq<nat>)
    ensures StartUndisturbed(Starts(db, budgets)) == StartUndisturbed(db)
  {
    hide Start, StartUndisturbed;
    if budgets != [] {
      AnyCrashes(db, budgets[..|budgets| - 1]);
      CrashThenStart(Starts(db, budgets[..|budgets| - 1]), budgets[|budgets| - 1]);
    }
  }

  // ----- where it ends -----

  /** The rows a reader sees; a missing table shows none. */
  function Seen(db: Db): Db {
    db.(versions := if SchemaVersion in db.tables then db.versions else [],
        legacy := if HistoricalBenchmarks in db.tables then db.legacy else [],
        benchmarks := if Benchmarks in db.tables then db.benchmarks else [],
        events := if QueryExecutedEvents in db.tables then db.events else [],
        lineage := if QueryEventTables in db.tables then db.lineage else {})
  }

  function TablesOf(version: int): set<Table> {
    if version == 1 then {ParameterHotspots, HistoricalBenchmarks}
    else if version == 2 then {QueryExecutedEvents, VisualizationViewedEvents, Benchmarks}
    else if version == 3 then {QueryEventTables}
    else if version == 4 then {SecurityAuditEvents}
    else {}
  }

  function UpTo(k: nat): seq<int> {
    if k == 0 then [] else UpTo(k - 1) + [k]
  }

  /** A store that completed the migrations up to `k`, and possibly a part of the next one. */
  ghost predicate Installed(db: Db, k: nat) {
    && k <= CURRENT_SCHEMA_VERSION
    && Seen(db).versions == UpTo(k)
    && forall v :: 1 <= v <= k ==> TablesOf(v) <= db.tables
  }

  lemma {:induction false} UpToFacts(k: nat)
    ensures |UpTo(k)| == k && (k > 0 ==> MaxOf(UpTo(k)) == k) && (forall v :: v in UpTo(k) ==> 1 <= v <= k)
  {
    if k > 0 {
      UpToFacts(k - 1);
      MaxPushed(UpTo(k - 1), k);
    }
  }

  /** What migration `v` does to the rows seen. */
  function Migrated(seen: Db, v: int): Db {
    var recorded := seen.(versions := seen.versions + [v]);
    if v == 2 then
      recorded.(benchmarks := if seen.benchmarks == [] then Converted(seen.legacy) else seen.benchmarks)
    else if v == 3 then recorded.(lineage := seen.lineage + LineageOf(seen.events))
    else recorded
  }

  /** Equal rows, whatever the tables and indexes. */
  predicate SameRows(a: Db, b: Db) {
    a.versions == b.versions && a.legacy == b.legacy && a.benchmarks == b.benchmarks && a.events == b.events
    && a.lineage == b.lineage
  }

  lemma StepAt(db: Db, ss: seq<Statement>, i: nat, rest: seq<Statement>)
    requires i < |ss| && Exec(db, ss[i]).Some?
    ensures All(db, ss[i..] + rest) == All(Exec(db, ss[i]).value, ss[i + 1..] + rest)
  {
    hide Exec;
    var tail := ss[i..] + rest;
    assert tail[0] == ss[i] && tail[1..] == ss[i + 1..] + rest;
  }

  /** Creating a table or an index shows no rows that were not there. */
  lemma CreatesStep(db: Db, s: Statement)
    requires s.CreateTable? || (s.CreateIndex? && s.on in db.tables)
    ensures Exec(db, s).Some?
    ensures var next := Exec(db, s).value;
            SameRows(Seen(next), Seen(db)) && next.tables == if s.CreateTable? then db.tables + {s.table} else db.tables
  {
  }

  /** The statements of `ss` from `i` up to `n` create tables and indexes on them. */
  ghost predicate OnlyCreates(ss: seq<Statement>, i: nat, n: nat, tables: set<Table>)
    decreases n - i
  {
    i <= n <= |ss| && (i < n ==>
                        match ss[i]
                        case CreateTable(t) => OnlyCreates(ss, i + 1, n, tables + {t})
                        case CreateIndex(_, t) => t in tables && OnlyCreates(ss, i + 1, n, tables)
                        case _ => false)
  }

  function CreatedBy(ss: seq<Statement>, i: nat, n: nat): set<Table>
    requires n <= |ss|
    decreases n - i
  {
    if i >= n then {}
    else (if ss[i].CreateTable? then {ss[i].table} else {}) + CreatedBy(ss, i + 1, n)
  }

  lemma {:induction false} CreatesRun(db: Db, ss: seq<Statement>, i: nat, n: nat, rest: seq<Statement>)
    returns (next: Db)
    requires OnlyCreates(ss, i, n, db.tables)
    ensures All(db, ss[i..] + rest) == All(next, ss[n..] + rest)
    ensures SameRows(Seen(next), Seen(db)) && next.tables == db.tables + CreatedBy(ss, i, n)
    decreases n - i
  {
    hide Exec, Seen, All, SameRows;
    next := db;
    if i < n {
      CreatesStep(db, ss[i]);
      StepAt(db, ss, i, rest);
      next := CreatesRun(Exec(db, ss[i]).value, ss, i + 1, n, rest);
      SameRowsTransitive(Seen(next), Seen(Exec(db, ss[i]).value), Seen(db));
    } else {
      SameRowsReflexive(Seen(db));
    }
  }

  lemma SameRowsTransitive(a: Db, b: Db, c: Db)
    requires SameRows(a, b) && SameRows(b, c)
    ensures SameRows(a, c)
  {
  }

  lemma SameRowsReflexive(a: Db)
    ensures SameRows(a, a)
  {
  }

  /** The creating part of each migration is in order: a table before its indexes. */
  lemma CreatesInOrder(v: int, tables: set<Table>) returns (n: nat)
    requires 1 <= v <= CURRENT_SCHEMA_VERSION
    ensures OnlyCreates(Migrate(v), 0, n, tables) && CreatedBy(Migrate(v), 0, n) == TablesOf(v)
    ensures Migrate(v)[n..] == (if v == 2 then [CopyLegacy] else if v == 3 then [CopyLineage] else [])
        + [RecordVersion(v)]
  {
    var ss := Migrate(v);
    if v == 1 {
      n := 6;
      var t := tables + {ParameterHotspots} + {HistoricalBenchmarks};
      assert OnlyCreates(ss, 4, n, t);
      assert OnlyCreates(ss, 2, n, tables + {ParameterHotspots});
      assert CreatedBy(ss, 4, n) == {};
      assert CreatedBy(ss, 2, n) == {HistoricalBenchmarks};
    } else if v == 2 {
      n := 4;
      var t := tables + {QueryExecutedEvents} + {VisualizationViewedEvents};
      assert OnlyCreates(ss, 2, n, t);
      assert CreatedBy(ss, 2, n) == {Benchmarks};
    } else if v == 3 {
      n := 2;
      assert CreatedBy(ss, 1, n) == {};
    } else {
      n := 3;
      assert OnlyCreates(ss, 1, n, tables + {SecurityAuditEvents});
      assert CreatedBy(ss, 1, n) == {};
    }
  }

  lemma MigrationDoes(db: Db, v: int, rest: seq<Statement>) returns (next: Db)
    requires 1 <= v <= CURRENT_SCHEMA_VERSION && SchemaVersion in db.tables && Installed(db, v - 1)
    ensures All(db, Migrate(v) + rest) == All(next, rest)
    ensures SameRows(Seen(next), Migrated(Seen(db), v)) && next.tables == db.tables + TablesOf(v)
  {
    hide Migrate, All, SameRows, Migrated, Seen, Installed, OnlyCreates, CreatedBy;
    var ss := Migrate(v);
    var n := CreatesInOrder(v, db.tables);
    assert ss[0..] == ss;
    var created := CreatesRun(db, ss, 0, n, rest);
    TailIsReady(db, v, created);
    next := TailDoes(created, v, rest);
    SameRowsMigrated(Seen(created), Seen(db), v);
    SameRowsTransitive(Seen(next), Migrated(Seen(created), v), Migrated(Seen(db), v));
  }

  lemma TailIsReady(db: Db, v: int, created: Db)
    requires 1 <= v <= CURRENT_SCHEMA_VERSION && SchemaVersion in db.tables && Installed(db, v - 1)
    requires SameRows(Seen(created), Seen(db)) && created.tables == db.tables + TablesOf(v)
    ensures v !in created.versions
    ensures v == 2 ==> HistoricalBenchmarks in created.tables && Benchmarks in created.tables
    ensures v == 3 ==> QueryExecutedEvents in created.tables && QueryEventTables in created.tables
  {
    UpToFacts(v - 1);
    assert v > 1 ==> TablesOf(v - 1) <= db.tables;
  }

  lemma SameRowsMigrated(a: Db, b: Db, v: int)
    requires SameRows(a, b)
    ensures SameRows(Migrated(a, v), Migrated(b, v))
  {
  }

  lemma TailDoes(db: Db, v: int, rest: seq<Statement>) returns (next: Db)
    requires 1 <= v <= CURRENT_SCHEMA_VERSION && SchemaVersion in db.tables && v !in db.versions
    requires v == 2 ==> HistoricalBenchmarks in db.tables && Benchmarks in db.tables
    requires v == 3 ==> QueryExecutedEvents in db.tables && QueryEventTables in db.tables
    ensures var tail := (if v == 2 then [CopyLegacy] else if v == 3 then [CopyLineage] else []) + [RecordVersion(v)];
            All(db, tail + rest) == All(next, rest)
    ensures SameRows(Seen(next), Migrated(Seen(db), v)) && next.tables == db.tables
  {
    hide All, LineageOf, Converted;
    var tail := (if v == 2 then [CopyLegacy] else if v == 3 then [CopyLineage] else []) + [RecordVersion(v)];
    assert tail[0..] == tail && tail[|tail|..] + rest == rest;
    StepAt(db, tail, 0, rest);
    next := Exec(db, tail[0]).value;
    if |tail| == 2 {
      StepAt(next, tail, 1, rest);
      next := Exec(next, tail[1]).value;
    }
  }

  /** All migrations after `k`, one after another. */
  function MigratedFrom(seen: Db, k: nat): Db
    requires k <= CURRENT_SCHEMA_VERSION
    decreases CURRENT_SCHEMA_VERSION - k
  {
    if k == CURRENT_SCHEMA_VERSION then seen else MigratedFrom(Migrated(seen, k + 1), k + 1)
  }

  lemma {:induction false} MigratedFromSameRows(a: Db, b: Db, k: nat)
    requires k <= CURRENT_SCHEMA_VERSION && SameRows(a, b)
    ensures SameRows(MigratedFrom(a, k), MigratedFrom(b, k))
    decreases CURRENT_SCHEMA_VERSION - k
  {
    hide Migrated, SameRows;
    if k < CURRENT_SCHEMA_VERSION {
      SameRowsMigrated(a, b, k + 1);
      MigratedFromSameRows(Migrated(a, k + 1), Migrated(b, k + 1), k + 1);
    }
  }

  lemma {:induction false} RemainingDoes(db: Db, k: nat)
    requires SchemaVersion in db.tables && Installed(db, k)
    ensures var end := All(db, Remaining(k));
            && end.outcome == Done && SchemaVersion in end.db.tables && Installed(end.db, CURRENT_SCHEMA_VERSION)
            && SameRows(Seen(end.db), MigratedFrom(Seen(db), k))
    decreases CURRENT_SCHEMA_VERSION - k
  {
    hide Migrate, Seen;
    if k < CURRENT_SCHEMA_VERSION {
      hide All;
      var next := MigrationDoes(db, k + 1, Remaining(k + 1));
      RemainingDoes(next, k + 1);
      MigratedFromSameRows(Seen(next), Migrated(Seen(db), k + 1), k + 1);
      SameRowsTransitive(Seen(All(next, Remaining(k + 1)).db), MigratedFrom(Seen(next), k + 1),
          MigratedFrom(Seen(db), k));
    }
  }

  /** The rows a store must show once migrated, given what it showed before. */
  ghost predicate FinalRows(before: Db, k: nat, after: Db) {
    && after.versions == [1, 2, 3, 4]
    && after.legacy == before.legacy && after.events == before.events
    && after.benchmarks == (if k < 2 && before.benchmarks == [] then Converted(before.legacy) else before.benchmarks)
    && after.lineage == (if k < 3 then before.lineage + LineageOf(before.events) else before.lineage)
  }

  lemma MigratedIsFinal(seen: Db, k: nat)
    requires k <= CURRENT_SCHEMA_VERSION && seen.versions == UpTo(k)
    ensures FinalRows(seen, k, MigratedFrom(seen, k))
    decreases CURRENT_SCHEMA_VERSION - k
  {
    hide LineageOf, Converted;
    assert UpTo(1) == [1] && UpTo(2) == [1, 2] && UpTo(3) == [1, 2, 3] && UpTo(4) == [1, 2, 3, 4];
    if k < 4 {
      MigratedIsFinal(Migrated(seen, k + 1), k + 1);
    }
  }

  lemma EndsFinal(db: Db, k: nat)
    requires Installed(db, k)
    ensures var end := StartUndisturbed(db);
            && end.outcome == Done && FinalRows(Seen(db), k, Seen(end.db))
            && forall v :: 1 <= v <= CURRENT_SCHEMA_VERSION ==> TablesOf(v) <= end.db.tables
  {
    hide Seen, All, Remaining, FinalRows, SameRows, Exec, TablesOf;
    var create := CreateTable(SchemaVersion);
    CreatesStep(db, create);
    var created := Exec(db, create).value;
    InstalledStarts(db, k, created);
    assert [create][0..] + Remaining(k) == Program(db) && [create][1..] + Remaining(k) == Remaining(k);
    StepAt(db, [create], 0, Remaining(k));
    RemainingDoes(created, k);
    MigratedIsFinal(Seen(created), k);
    FinalRowsSame(Seen(db), Seen(created), k, MigratedFrom(Seen(created), k), Seen(All(created, Remaining(k)).db));
  }

  // ----- the end, field by field -----

  /** What a legacy row becomes. */
  predicate IsCopyOf(b: Benchmark, l: Legacy) {
    && b.queryId == "legacy-" + l.id && b.tableName == l.parameterName && b.contextVersion == 1
    && b.timestamp == l.createdAt
    && b.context.version == 1 && b.context.dbPath == "" && b.context.rowCount == 0 && b.context.columnCount == 0
    && b.context.tableName == l.parameterName
    && b.context.notes ==
       "legacy_metric:" + l.metricType + "=" + l.metricValue + "; legacy_context=" + l.contextJson
  }

  /** The event names this table and no other. */
  predicate Names(e: Event, queryId: string, table: string) {
    && e.queryId == queryId && e.sourceTable == Some(table)
    && ',' !in table && exists i :: 0 <= i < |table| && table[i] != ' '
  }

  function IndexNames(version: int): set<string> {
    if version == 1 then
      {"idx_parameter_hotspots_connection_hits", "idx_parameter_hotspots_last_observed",
       "idx_historical_benchmarks_parameter_metric_created", "idx_historical_benchmarks_created"}
    else if version == 2 then {"idx_context_table_version"}
    else if version == 3 then {"idx_query_event_tables_table_name"}
    else if version == 4 then {"idx_security_audit_events_created_at", "idx_security_audit_events_type_outcome"}
    else {}
  }

  /** All tables and the recorded versions 1 to 4; legacy rows and events as they were;
      each legacy row copied once and in order, unless version 2 was recorded or there
      were benchmarks; lineage added for exactly the events that name one table, unless
      version 3 was recorded. */
  ghost predicate AsPromised(before: Db, k: nat, after: Db) {
    var benchmarks := if Benchmarks in before.tables then before.benchmarks else [];
    && after.tables >= {SchemaVersion, ParameterHotspots, HistoricalBenchmarks, QueryExecutedEvents,
                        VisualizationViewedEvents, Benchmarks, QueryEventTables, SecurityAuditEvents}
    && after.versions == [1, 2, 3, 4]
    && after.legacy == (if HistoricalBenchmarks in before.tables then before.legacy else [])
    && after.events == (if QueryExecutedEvents in before.tables then before.events else [])
    && (if k < 2 && benchmarks == [] then
          && |after.benchmarks| == |after.legacy|
          && forall i :: 0 <= i < |after.legacy| ==> IsCopyOf(after.benchmarks[i], after.legacy[i])
        else after.benchmarks == benchmarks)
    && (forall queryId, table :: Lineage(queryId, table) in after.lineage <==>
          || (QueryEventTables in before.tables && Lineage(queryId, table) in before.lineage)
          || (k < 3 && exists e :: e in after.events && Names(e, queryId, table)))
  }

  lemma ConvertedIsCopy(legacy: seq<Legacy>)
    ensures |Converted(legacy)| == |legacy|
    ensures forall i :: 0 <= i < |legacy| ==> IsCopyOf(Converted(legacy)[i], legacy[i])
  {
  }

  lemma LineageIsNamed(events: seq<Event>, queryId: string, table: string)
    ensures Lineage(queryId, table) in LineageOf(events) <==> exists e :: e in events && Names(e, queryId, table)
  {
    if e :| e in events && Names(e, queryId, table) {
      assert NamesOneTable(e.sourceTable.value);
    }
  }

  lemma FinalIsPromised(before: Db, k: nat, after: Db)
    requires FinalRows(Seen(before), k, Seen(after)) && SchemaVersion in after.tables
    requires forall v :: 1 <= v <= CURRENT_SCHEMA_VERSION ==> TablesOf(v) <= after.tables
    ensures AsPromised(before, k, after)
  {
    hide Converted, LineageOf, IsCopyOf, Names;
    assert TablesOf(1) <= after.tables && TablesOf(2) <= after.tables && TablesOf(3) <= after.tables
           && TablesOf(4) <= after.tables;
    ConvertedIsCopy(after.legacy);
    forall queryId, table
      ensures Lineage(queryId, table) in LineageOf(after.events) <==>
              exists e :: e in after.events && Names(e, queryId, table)
    {
      LineageIsNamed(after.events, queryId, table);
    }
  }

  // ----- indexes -----

  lemma {:induction false} AllAsSteps(db: Db, ss: seq<Statement>)
    ensures var end := Steps(db, ss, |ss|); All(db, ss).db == end.db && All(db, ss).outcome == end.outcome
    decreases |ss|
  {
    hide Exec;
    if ss != [] && Exec(db, ss[0]).Some? {
      AllAsSteps(Exec(db, ss[0]).value, ss[1..]);
    }
  }

  lemma {:induction false} RemainingHas(k: int, v: int, s: Statement)
    requires k < v <= CURRENT_SCHEMA_VERSION && s in Migrate(v)
    ensures s in Remaining(k)
    decreases v - k
  {
    hide Migrate;
    if v > k + 1 {
      RemainingHas(k + 1, v, s);
    }
  }

  lemma IndexIsCreated(v: int, name: string) returns (t: Table)
    requires name in IndexNames(v)
    ensures CreateIndex(name, t) in Migrate(v)
  {
    var ss := Migrate(v);
    if v == 1 {
      t := if name == "idx_parameter_hotspots_connection_hits" || name == "idx_parameter_hotspots_last_observed"
      then ParameterHotspots else HistoricalBenchmarks;
      assert ss[1] in ss && ss[2] in ss && ss[4] in ss && ss[5] in ss;
    } else if v == 2 {
      t := Benchmarks;
      assert ss[3] in ss;
    } else if v == 3 {
      t := QueryEventTables;
      assert ss[1] in ss;
    } else {
      t := SecurityAuditEvents;
      assert ss[1] in ss && ss[2] in ss;
    }
  }

  /** The indexes of every version not recorded before are there in the end. */
  lemma IndexesEnd(db: Db, v: int)
    requires StartUndisturbed(db).outcome == Done && CurrentVersion(db) < v <= CURRENT_SCHEMA_VERSION
    ensures IndexNames(v) <= StartUndisturbed(db).db.indexes
  {
    hide Migrate, Remaining, All, Steps, IndexNames;
    var ss := Program(db);
    AllAsSteps(db, ss);
    forall name | name in IndexNames(v)
      ensures name in StartUndisturbed(db).db.indexes
    {
      var t := IndexIsCreated(v, name);
      RemainingHas(CurrentVersion(db), v, CreateIndex(name, t));
      AllSettled(db, ss, |ss|, CreateIndex(name, t));
      SettledIndex(Steps(db, ss, |ss|).db, name, t);
    }
  }

  lemma SettledIndex(db: Db, name: string, t: Table)
    requires Settled(db, CreateIndex(name, t))
    ensures name in db.indexes
  {
    assert name in db.indexes + {name};
  }

  /** From any store that completed the migrations up to `k`, through any number
      of crashes anywhere, the migration ends well: it is done, leaves what it promises
      field by field, and the indexes of all versions after `k`. */
  lemma MigrationEndsWell(db: Db, k: nat, budgets: seq<nat>)
    requires Installed(db, k)
    ensures var end := StartUndisturbed(Starts(db, budgets));
            && end.outcome == Done && AsPromised(db, k, end.db)
            && forall v :: k < v <= 4 ==> IndexNames(v) <= end.db.indexes
  {
    hide Starts, StartUndisturbed, Seen, FinalRows, TablesOf, AsPromised, IndexNames;
    EndsFinal(db, k);
    AnyCrashes(db, budgets);
    var end := StartUndisturbed(db);
    SchemaTableStays(db);
    FinalIsPromised(db, k, end.db);
    InstalledVersion(db, k);
    forall v | k < v <= 4
      ensures IndexNames(v) <= end.db.indexes
    {
      IndexesEnd(db, v);
    }
  }

  lemma InstalledVersion(db: Db, k: nat)
    requires Installed(db, k)
    ensures CurrentVersion(db) == k
  {
    UpToFacts(k);
  }

  lemma SchemaTableStays(db: Db)
    requires StartUndisturbed(db).outcome == Done
    ensures SchemaVersion in StartUndisturbed(db).db.tables
  {
    hide Remaining, Steps, All;
    var ss := Program(db);
    AllAsSteps(db, ss);
    AllSettled(db, ss, |ss|, CreateTable(SchemaVersion));
    SettledTable(Steps(db, ss, |ss|).db, SchemaVersion);
  }

  lemma SettledTable(db: Db, t: Table)
    requires Settled(db, CreateTable(t))
    ensures t in db.tables
  {
    assert t in Created(db, t).tables;
  }

  /** What `Installed` asks: no more than the recorded versions and their tables. */
  lemma InstalledMeans(db: Db, k: nat)
    ensures Installed(db, k) <==>
            && k <= 4
            && (if SchemaVersion in db.tables then db.versions == [1, 2, 3, 4][..k] else k == 0)
            && (k >= 1 ==> {ParameterHotspots, HistoricalBenchmarks} <= db.tables)
            && (k >= 2 ==> {QueryExecutedEvents, VisualizationViewedEvents, Benchmarks} <= db.tables)
            && (k >= 3 ==> QueryEventTables in db.tables)
            && (k >= 4 ==> SecurityAuditEvents in db.tables)
  {
    hide TablesOf;
    if k <= 4 {
      UpToIs(k);
      TablesAre();
      assert (forall v :: 1 <= v <= k ==> TablesOf(v) <= db.tables) <==>
             && (k >= 1 ==> TablesOf(1) <= db.tables) && (k >= 2 ==> TablesOf(2) <= db.tables)
             && (k >= 3 ==> TablesOf(3) <= db.tables) && (k >= 4 ==> TablesOf(4) <= db.tables);
    }
  }

  lemma UpToIs(k: nat)
    requires k <= 4
    ensures UpTo(k) == [1, 2, 3, 4][..k]
  {
    assert UpTo(0) == [] && UpTo(1) == [1] && UpTo(2) == [1, 2] && UpTo(3) == [1, 2, 3] && UpTo(4) == [1, 2, 3, 4];
  }

  lemma TablesAre()
    ensures TablesOf(1) == {ParameterHotspots, HistoricalBenchmarks}
    ensures TablesOf(2) == {QueryExecutedEvents, VisualizationViewedEvents, Benchmarks}
    ensures TablesOf(3) == {QueryEventTables} && TablesOf(4) == {SecurityAuditEvents}
  {
  }

  lemma InstalledStarts(db: Db, k: nat, created: Db)
    requires Installed(db, k) && SameRows(Seen(created), Seen(db)) && created.tables == db.tables + {SchemaVersion}
    ensures Installed(created, k) && CurrentVersion(db) == k
  {
    UpToFacts(k);
  }

  lemma FinalRowsSame(before: Db, before': Db, k: nat, after: Db, after': Db)
    requires SameRows(before', before) && SameRows(after', after) && FinalRows(before', k, after)
    ensures FinalRows(before, k, after')
  {
  }

  // ----- every crash point -----

  lemma QuietKeepsInstalled(db: Db, s: Statement, k: nat)
    requires Installed(db, k) && Quiet(s) && Exec(db, s).Some?
    ensures Installed(Exec(db, s).value, k) && db.tables <= Exec(db, s).value.tables
  {
  }

  lemma {:induction false} QuietStepsKeepInstalled(db: Db, ss: seq<Statement>, budget: nat, k: nat)
    requires Installed(db, k) && forall s :: s in ss ==> Quiet(s)
    ensures Installed(Steps(db, ss, budget).db, k)
    decreases |ss|
  {
    hide Exec, Installed, Quiet;
    if ss != [] && budget > 0 && Exec(db, ss[0]).Some? {
      assert Quiet(ss[0]);
      QuietKeepsInstalled(db, ss[0], k);
      QuietStepsKeepInstalled(Exec(db, ss[0]).value, ss[1..], budget - 1, k);
    }
  }

  lemma UnfinishedKeepsInstalled(db: Db, k: nat, budget: nat)
    requires Installed(db, k) && k < CURRENT_SCHEMA_VERSION && Steps(db, Migrate(k + 1), budget).outcome != Done
    ensures Installed(Steps(db, Migrate(k + 1), budget).db, k)
  {
    hide Exec, Installed, Migrate, Quiet;
    var ss := Migrate(k + 1);
    MigrateShape(k + 1);
    var init := ss[..|ss| - 1];
    assert ss == init + [RecordVersion(k + 1)];
    StepsAppend(db, init, [RecordVersion(k + 1)], budget);
    QuietStepsKeepInstalled(db, init, budget, k);
  }

  lemma MigrationKeepsInstalled(db: Db, k: nat, budget: nat)
    requires SchemaVersion in db.tables && Installed(db, k) && k < CURRENT_SCHEMA_VERSION
    requires Steps(db, Migrate(k + 1), budget).outcome == Done
    ensures var next := Steps(db, Migrate(k + 1), budget).db;
            SchemaVersion in next.tables && Installed(next, k + 1)
  {
    hide Exec, Migrate, Seen;
    var next := MigrationDoes(db, k + 1, []);
    AllAfterSteps(db, Migrate(k + 1), [], budget);
    assert Seen(next).versions == UpTo(k + 1);
  }

  lemma {:induction false} LoopKeepsInstalled(db: Db, k: nat, budget: nat) returns (m: nat)
    requires SchemaVersion in db.tables && Installed(db, k)
    ensures k <= m && Installed(Steps(db, Remaining(k), budget).db, m)
    decreases CURRENT_SCHEMA_VERSION - k
  {
    hide Migrate, Steps, Installed;
    m := k;
    if k >= CURRENT_SCHEMA_VERSION {
      StepsOfNone(db, budget);
    } else {
      StepsAppend(db, Migrate(k + 1), Remaining(k + 1), budget);
      var end := Steps(db, Migrate(k + 1), budget);
      if end.outcome == Done {
        MigrationKeepsInstalled(db, k, budget);
        m := LoopKeepsInstalled(end.db, k + 1, end.budget);
      } else {
        UnfinishedKeepsInstalled(db, k, budget);
      }
    }
  }

  lemma StartKeepsInstalled(db: Db, k: nat, budget: nat) returns (m: nat)
    requires Installed(db, k)
    ensures k <= m && Installed(Start(db, budget).db, m)
  {
    hide Steps, Seen, Remaining;
    var create := CreateTable(SchemaVersion);
    m := k;
    StepsAppend(db, [create], Remaining(CurrentVersion(db)), budget);
    FirstStatement(db, budget);
    if budget > 0 {
      CreatesStep(db, create);
      var created := Exec(db, create).value;
      InstalledStarts(db, k, created);
      m := LoopKeepsInstalled(created, k, budget - 1);
    }
  }

  /** At every crash the recorded versions are 1 up to some m. */
  lemma {:induction false} VersionsArePrefix(db: Db, k: nat, budgets: seq<nat>) returns (m: nat)
    requires Installed(db, k)
    ensures k <= m && Installed(Starts(db, budgets), m)
  {
    m := k;
    if budgets != [] {
      var init := Starts(db, budgets[..|budgets| - 1]);
      m := VersionsArePrefix(db, k, budgets[..|budgets| - 1]);
      m := StartKeepsInstalled(init, m, budgets[|budgets| - 1]);
    }
  }
}
