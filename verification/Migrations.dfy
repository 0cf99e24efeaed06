/** The schema migration runner: a bootstrap for empty databases, then incremental migrations, one
    transaction each, with a ledger of what has been applied. */
module Migrations {

  type Table = string
  type Column = string
  type Schema = map<Table, set<Column>>

  datatype Statement =
    | CreateIfNotExists(table: Table, columns: set<Column>)
    | AddColumn(table: Table, column: Column)

  datatype Migration = Migration(name: string, statements: seq<Statement>)

  /** The current bootstrap's tables with their columns, and the migrations after it. */
  datatype Plan = Plan(bootstrap: Schema, migrations: seq<Migration>)

  datatype SqlError = NoError | DuplicateColumn | NoSuchTable | TableExists

  const INITIAL := "001_initial_bootstrap"

  /** What is on disk between two transactions. */
  datatype Db = Db(schema: Schema, ledger: seq<string>)

  function Execute(s: Schema, stmt: Statement): (r: (Schema, SqlError)) {
    match stmt
    case CreateIfNotExists(t, cols) => (if t in s then s else s[t := cols], NoError)
    case AddColumn(t, c) =>
      if t !in s then (s, NoSuchTable)
      else if c in s[t] then (s, DuplicateColumn)
      else (s[t := s[t] + {c}], NoError)
  }

  /** All statements of a migration; duplicate columns and missing tables are passed over. */
  function ExecuteAll(s: Schema, stmts: seq<Statement>): Schema {
    if stmts == [] then s
    else Execute(ExecuteAll(s, stmts[..|stmts| - 1]), stmts[|stmts| - 1]).0
  }

  datatype Outcome = Done | Crashed | Failed

  /** The database after the incremental migrations when the process dies after `fuel` commits. */
  function Migrated(ms: seq<Migration>, db: Db, fuel: nat): (Db, Outcome) {
    if ms == [] then (db, Done)
    else if ms[0].name in db.ledger then Migrated(ms[1..], db, fuel)
    else if fuel == 0 then (db, Crashed)
    else Migrated(ms[1..], Applied(db, ms[0]), fuel - 1)
  }

  function Applied(db: Db, m: Migration): Db {
    Db(ExecuteAll(db.schema, m.statements), db.ledger + [m.name])
  }

  /** A whole run: the bootstrap, refused if one of its tables is already there, then the rest. */
  function Run(plan: Plan, db: Db, fuel: nat): (Db, Outcome) {
    if INITIAL in db.ledger then Migrated(plan.migrations, db, fuel)
    else if plan.bootstrap.Keys !! db.schema.Keys then
      if fuel == 0 then (db, Crashed)
      else Migrated(plan.migrations, Db(db.schema + plan.bootstrap, db.ledger + [INITIAL]), fuel - 1)
    else (db, Failed)
  }

  /** The connection, with the schema and the ledger it changes in place. */
  class Database {
    var schema: Schema
    var ledger: seq<string>

    ghost function State(): Db
      reads this
    {
      Db(schema, ledger)
    }

    method Exec(stmt: Statement) returns (error: SqlError)
      modifies this`schema
      ensures (schema, error) == Execute(old(schema), stmt)
    {
      match stmt
      case CreateIfNotExists(t, cols) =>
        if t !in schema { schema := schema[t := cols]; }
        error := NoError;
      case AddColumn(t, c) =>
        if t !in schema { error := NoSuchTable; }
        else if c in schema[t] { error := DuplicateColumn; }
        else { schema := schema[t := schema[t] + {c}]; error := NoError; }
    }

    /** One transaction: the statements, then the ledger entry. */
    method ApplyMigration(m: Migration)
      modifies this
      ensures State() == Applied(old(State()), m)
    {
      for i := 0 to |m.statements|
        invariant schema == ExecuteAll(old(schema), m.statements[..i]) && ledger == old(ledger)
      {
        assert m.statements[..i + 1][..i] == m.statements[..i];
        var error := Exec(m.statements[i]);
        assert error != TableExists;
      }
      assert m.statements[..|m.statements|] == m.statements;
      ledger := ledger + [m.name];
    }

    /** Runs until it is done, or the process dies after `fuel` commits, or the bootstrap fails. */
    method RunMigrations(plan: Plan, fuel: nat) returns (outcome: Outcome)
      modifies this
      ensures (State(), outcome) == Run(plan, old(State()), fuel)
    {
      var left := fuel;
      if INITIAL !in ledger {
        if !(plan.bootstrap.Keys !! schema.Keys) { return Failed; }
        if left == 0 { return Crashed; }
        schema := schema + plan.bootstrap;
        ledger := ledger + [INITIAL];
        left := left - 1;
      }
      for i := 0 to |plan.migrations|
        invariant Run(plan, old(State()), fuel) == Migrated(plan.migrations[i..], State(), left)
      {
        assert plan.migrations[i..][1..] == plan.migrations[i + 1..];
        if plan.migrations[i].name !in ledger {
          if left == 0 { return Crashed; }
          ApplyMigration(plan.migrations[i]);
          left := left - 1;
        }
      }
      return Done;
    }
  }

  // ---------------------------------------------------------------------------------------------
  // Convergence
  // ---------------------------------------------------------------------------------------------

  predicate Creates(stmts: seq<Statement>, t: Table) {
    exists k | 0 <= k < |stmts| :: stmts[k].CreateIfNotExists? && stmts[k].table == t
  }

  predicate Adds(stmts: seq<Statement>, t: Table, c: Column) {
    AddColumn(t, c) in stmts
  }

  /** Frozen history: what is created or added is in the current bootstrap as well, and a created table
      gets the columns that the bootstrap has besides from later statements. */
  predicate Frozen(b: Schema, stmts: seq<Statement>) {
    stmts == []
    || (Frozen(b, stmts[1..])
        && match stmts[0]
           case CreateIfNotExists(t, cols) => t in b && cols <= b[t] && forall c | c in b[t] - cols :: Adds(stmts[1..], t, c)
           case AddColumn(t, c) => t in b && c in b[t])
  }

  /** The schema is part of the current one, and the statements to come bring whatever it lacks. */
  ghost predicate CatchesUp(b: Schema, s: Schema, rest: seq<Statement>) {
    && Frozen(b, rest) && s.Keys <= b.Keys
    && (forall t :: t in s ==> s[t] <= b[t])
    && (forall t :: t in b && t !in s ==> Creates(rest, t))
    && forall t, c :: t in s && c in b[t] && c !in s[t] ==> Adds(rest, t, c)
  }

  /** The statements of the migrations that are not recorded, in order. */
  function Pending(ms: seq<Migration>, ledger: seq<string>): seq<Statement> {
    if ms == [] then [] else (if ms[0].name in ledger then [] else ms[0].statements) + Pending(ms[1..], ledger)
  }

  predicate DistinctNames(ms: seq<Migration>) {
    forall i, j :: 0 <= i < j < |ms| ==> ms[i].name != ms[j].name
  }

  /** Migrations are frozen history under names of their own. */
  predicate WellFormed(plan: Plan) {
    && DistinctNames(plan.migrations)
    && (forall i :: 0 <= i < |plan.migrations| ==> plan.migrations[i].name != INITIAL)
    && Frozen(plan.bootstrap, Pending(plan.migrations, []))
  }

  predicate NoRepeats(ledger: seq<string>) {
    forall i, j :: 0 <= i < j < |ledger| ==> ledger[i] != ledger[j]
  }

  predicate Known(plan: Plan, ledger: seq<string>) {
    forall n | n in ledger :: n == INITIAL || exists m | m in plan.migrations :: m.name == n
  }

  /** An empty database, or one that an older version bootstrapped and perhaps migrated. */
  ghost predicate Upgradable(plan: Plan, db: Db) {
    && NoRepeats(db.ledger) && Known(plan, db.ledger)
    && if INITIAL in db.ledger then CatchesUp(plan.bootstrap, db.schema, Pending(plan.migrations, db.ledger))
       else db == Db(map[], [])
  }

  /** The current schema, with every name recorded exactly once. */
  predicate Current(plan: Plan, db: Db) {
    && db.schema == plan.bootstrap
    && NoRepeats(db.ledger) && Known(plan, db.ledger)
    && INITIAL in db.ledger && forall m | m in plan.migrations :: m.name in db.ledger
  }

  lemma CatchUpStep(b: Schema, s: Schema, rest: seq<Statement>)
    requires CatchesUp(b, s, rest) && rest != []
    ensures CatchesUp(b, Execute(s, rest[0]).0, rest[1..])
  {
    var next := Execute(s, rest[0]).0;
    forall t | t in b && t !in next ensures Creates(rest[1..], t) {
      var k :| 0 <= k < |rest| && rest[k].CreateIfNotExists? && rest[k].table == t;
      assert k > 0 && rest[1..][k - 1] == rest[k];
    }
    forall t, c | t in next && c in b[t] && c !in next[t] ensures Adds(rest[1..], t, c) {
      if t in s {
        assert AddColumn(t, c) in rest && rest == [rest[0]] + rest[1..];
      }
    }
  }

  lemma {:induction false} ExecuteHead(s: Schema, stmts: seq<Statement>)
    requires stmts != []
    ensures ExecuteAll(s, stmts) == ExecuteAll(Execute(s, stmts[0]).0, stmts[1..])
    decreases |stmts|
  {
    var n := |stmts| - 1;
    if n == 0 {
      assert stmts[..0] == [] && stmts[1..] == [];
      assert ExecuteAll(s, []) == s;
    } else {
      ExecuteHead(s, stmts[..n]);
      assert stmts[..n][1..] == stmts[1..][..n - 1];
    }
  }

  /** Executing some of the statements to come leaves the others to bring what is still lacking. */
  lemma {:induction false} CatchUpSome(b: Schema, s: Schema, some: seq<Statement>, rest: seq<Statement>)
    requires CatchesUp(b, s, some + rest)
    ensures CatchesUp(b, ExecuteAll(s, some), rest)
    decreases |some|
  {
    hide CatchesUp, Execute;
    if some == [] {
      assert some + rest == rest;
    } else {
      CatchUpStep(b, s, some + rest);
      assert (some + rest)[1..] == some[1..] + rest;
      ExecuteHead(s, some);
      CatchUpSome(b, Execute(s, some[0]).0, some[1..], rest);
    }
  }

  lemma NothingLacks(b: Schema, s: Schema)
    requires CatchesUp(b, s, [])
    ensures s == b
  {
    forall t | t in b ensures t in s && s[t] == b[t] {
      assert t !in s ==> Creates([], t);
      assert forall c :: t in s && c in b[t] && c !in s[t] ==> Adds([], t, c);
    }
  }

  lemma {:induction false} PendingIgnores(ms: seq<Migration>, ledger: seq<string>, name: string)
    requires forall i :: 0 <= i < |ms| ==> ms[i].name != name
    ensures Pending(ms, ledger + [name]) == Pending(ms, ledger)
  {
    if ms != [] { PendingIgnores(ms[1..], ledger, name); }
  }

  lemma {:induction false} PendingDone(ms: seq<Migration>, ledger: seq<string>, done: nat)
    requires done <= |ms| && forall i :: 0 <= i < done ==> ms[i].name in ledger
    ensures Pending(ms, ledger) == Pending(ms[done..], ledger)
    decreases done
  {
    if done > 0 {
      PendingDone(ms[1..], ledger, done - 1);
      assert ms[1..][done - 1..] == ms[done..];
    }
  }

  /** Applying the next migration that is not recorded. */
  lemma AppliedUpgradable(plan: Plan, done: nat, db: Db)
    requires WellFormed(plan) && done < |plan.migrations| && Upgradable(plan, db) && INITIAL in db.ledger
    requires forall i :: 0 <= i < done ==> plan.migrations[i].name in db.ledger
    requires plan.migrations[done].name !in db.ledger
    ensures Upgradable(plan, Applied(db, plan.migrations[done]))
  {
    hide CatchesUp, Pending, ExecuteAll, Frozen, NoRepeats, Known;
    var ms, m := plan.migrations, plan.migrations[done];
    NextPending(ms, done, db.ledger);
    CatchUpSome(plan.bootstrap, db.schema, m.statements, Pending(ms[done + 1..], db.ledger));
    LedgerGrows(plan, db.ledger, m);
  }

  lemma NextPending(ms: seq<Migration>, done: nat, ledger: seq<string>)
    requires done < |ms| && DistinctNames(ms) && ms[done].name !in ledger
    requires forall i :: 0 <= i < done ==> ms[i].name in ledger
    ensures Pending(ms, ledger) == ms[done].statements + Pending(ms[done + 1..], ledger)
    ensures Pending(ms, ledger + [ms[done].name]) == Pending(ms[done + 1..], ledger)
  {
    assert ms[done..][0] == ms[done] && ms[done..][1..] == ms[done + 1..];
    PendingDone(ms, ledger, done);
    PendingDone(ms, ledger + [ms[done].name], done + 1);
    PendingIgnores(ms[done + 1..], ledger, ms[done].name);
  }

  lemma LedgerGrows(plan: Plan, ledger: seq<string>, m: Migration)
    requires NoRepeats(ledger) && Known(plan, ledger) && m in plan.migrations && m.name !in ledger
    ensures NoRepeats(ledger + [m.name]) && Known(plan, ledger + [m.name])
  {}

  /** Migrating keeps a database upgradable wherever it dies, and completes it if it does not. */
  lemma {:induction false} MigratedUpgradable(plan: Plan, done: nat, db: Db, fuel: nat)
    requires WellFormed(plan) && done <= |plan.migrations| && Upgradable(plan, db) && INITIAL in db.ledger
    requires forall i :: 0 <= i < done ==> plan.migrations[i].name in db.ledger
    ensures var (r, outcome) := Migrated(plan.migrations[done..], db, fuel);
            && Upgradable(plan, r) && INITIAL in r.ledger && outcome != Failed
            && (outcome == Done ==> forall m | m in plan.migrations :: m.name in r.ledger)
            && (fuel >= |plan.migrations| - done ==> outcome == Done)
    decreases |plan.migrations| - done
  {
    hide Upgradable, WellFormed, ExecuteAll;
    var ms := plan.migrations;
    if done < |ms| {
      assert ms[done..][1..] == ms[done + 1..];
      if ms[done].name in db.ledger {
        MigratedUpgradable(plan, done + 1, db, fuel);
      } else if fuel > 0 {
        AppliedUpgradable(plan, done, db);
        MigratedUpgradable(plan, done + 1, Applied(db, ms[done]), fuel - 1);
      }
    }
  }

  /** Nothing is left to bring once every migration is recorded. */
  lemma RecordedIsCurrent(plan: Plan, db: Db)
    requires Upgradable(plan, db) && INITIAL in db.ledger
    requires forall m | m in plan.migrations :: m.name in db.ledger
    ensures Current(plan, db)
  {
    hide CatchesUp;
    var n := |plan.migrations|;
    PendingDone(plan.migrations, db.ledger, n);
    assert plan.migrations[n..] == [];
    NothingLacks(plan.bootstrap, db.schema);
  }

  lemma FreshIsEmpty(plan: Plan, db: Db)
    requires Upgradable(plan, db) && INITIAL !in db.ledger
    ensures db == Db(map[], [])
  {}

  lemma FreshUpgradable(plan: Plan)
    requires WellFormed(plan)
    ensures Upgradable(plan, Db(plan.bootstrap, [INITIAL]))
  {
    PendingIgnores(plan.migrations, [], INITIAL);
    assert [] + [INITIAL] == [INITIAL];
  }

  lemma RunUpgradable(plan: Plan, db: Db, fuel: nat)
    requires WellFormed(plan) && Upgradable(plan, db)
    ensures var (r, outcome) := Run(plan, db, fuel);
            && Upgradable(plan, r) && outcome != Failed
            && (outcome == Done ==> Current(plan, r))
            && (fuel > |plan.migrations| ==> outcome == Done)
  {
    hide Upgradable, WellFormed, Migrated, Current;
    assert plan.migrations[0..] == plan.migrations;
    if INITIAL in db.ledger {
      MigratedUpgradable(plan, 0, db, fuel);
    } else {
      FreshIsEmpty(plan, db);
      if fuel > 0 {
        FreshUpgradable(plan);
        assert map[] + plan.bootstrap == plan.bootstrap && [] + [INITIAL] == [INITIAL];
        MigratedUpgradable(plan, 0, Db(plan.bootstrap, [INITIAL]), fuel - 1);
      }
    }
    var (r, outcome) := Run(plan, db, fuel);
    if outcome == Done { RecordedIsCurrent(plan, r); }
  }

  /** Runs that died early, one after the other. */
  function DiedRuns(plan: Plan, db: Db, fuels: seq<nat>): Db
    decreases |fuels|
  {
    if fuels == [] then db else DiedRuns(plan, Run(plan, db, fuels[0]).0, fuels[1..])
  }

  lemma {:induction false} DiedRunsUpgradable(plan: Plan, db: Db, fuels: seq<nat>)
    requires WellFormed(plan) && Upgradable(plan, db)
    ensures Upgradable(plan, DiedRuns(plan, db, fuels))
    decreases |fuels|
  {
    if fuels != [] {
      RunUpgradable(plan, db, fuels[0]);
      DiedRunsUpgradable(plan, Run(plan, db, fuels[0]).0, fuels[1..]);
    }
  }

  /** From an empty or an older database, after any number of runs that died between any two
      transactions, a run that is left alone ends with the current schema and every name once. */
  lemma RunsConverge(plan: Plan, db: Db, fuels: seq<nat>, fuel: nat)
    requires WellFormed(plan) && Upgradable(plan, db) && fuel > |plan.migrations|
    ensures var (r, outcome) := Run(plan, DiedRuns(plan, db, fuels), fuel);
            outcome == Done && Current(plan, r)
  {
    DiedRunsUpgradable(plan, db, fuels);
    RunUpgradable(plan, DiedRuns(plan, db, fuels), fuel);
  }

  /** A run on a current database commits nothing and changes nothing. */
  lemma {:induction false} CurrentStays(plan: Plan, db: Db, fuel: nat)
    requires Current(plan, db)
    ensures Run(plan, db, fuel) == (db, Done)
  {
    MigratedSkips(plan.migrations, db, fuel);
  }

  lemma {:induction false} MigratedSkips(ms: seq<Migration>, db: Db, fuel: nat)
    requires forall m | m in ms :: m.name in db.ledger
    ensures Migrated(ms, db, fuel) == (db, Done)
  {
    if ms != [] { MigratedSkips(ms[1..], db, fuel); }
  }

  // ---------------------------------------------------------------------------------------------
  // Older versions
  // ---------------------------------------------------------------------------------------------

  /** The schema the bootstrap built when only `version` of today's migrations had been written: without
      the tables and the columns that the others bring. */
  function OldBootstrap(plan: Plan, version: nat): Schema
    requires version <= |plan.migrations|
  {
    var later := Pending(plan.migrations[version..], []);
    map t | t in plan.bootstrap && !Creates(later, t) :: set c | c in plan.bootstrap[t] && !Adds(later, t, c)
  }

  function Names(ms: seq<Migration>): (names: seq<string>)
    ensures |names| == |ms| && forall i :: 0 <= i < |ms| ==> names[i] == ms[i].name
  {
    seq(|ms|, i requires 0 <= i < |ms| => ms[i].name)
  }

  lemma {:induction false} PendingAppend(a: seq<Migration>, b: seq<Migration>, ledger: seq<string>)
    ensures Pending(a + b, ledger) == Pending(a, ledger) + Pending(b, ledger)
  {
    if a == [] {
      assert a + b == b;
    } else {
      assert (a + b)[1..] == a[1..] + b;
      PendingAppend(a[1..], b, ledger);
    }
  }

  lemma {:induction false} PendingOutside(ms: seq<Migration>, ledger: seq<string>)
    requires forall i :: 0 <= i < |ms| ==> ms[i].name !in ledger
    ensures Pending(ms, ledger) == Pending(ms, [])
  {
    if ms != [] { PendingOutside(ms[1..], ledger); }
  }

  lemma {:induction false} FrozenSuffix(b: Schema, first: seq<Statement>, rest: seq<Statement>)
    requires Frozen(b, first + rest)
    ensures Frozen(b, rest)
  {
    if first == [] {
      assert first + rest == rest;
    } else {
      assert (first + rest)[1..] == first[1..] + rest;
      FrozenSuffix(b, first[1..], rest);
    }
  }

  lemma OldCatchesUp(plan: Plan, version: nat, between: seq<Statement>)
    requires version <= |plan.migrations|
    requires Frozen(plan.bootstrap, between + Pending(plan.migrations[version..], []))
    ensures CatchesUp(plan.bootstrap, OldBootstrap(plan, version), between + Pending(plan.migrations[version..], []))
  {
    var later, s := Pending(plan.migrations[version..], []), OldBootstrap(plan, version);
    forall t | t in plan.bootstrap && t !in s ensures Creates(between + later, t) {
      var k :| 0 <= k < |later| && later[k].CreateIfNotExists? && later[k].table == t;
      assert (between + later)[|between| + k] == later[k];
    }
  }

  /** Every older bootstrap can be brought up to date, with any part of its migrations recorded. */
  lemma OldVersionUpgradable(plan: Plan, version: nat, recorded: nat)
    requires WellFormed(plan) && recorded <= version <= |plan.migrations|
    ensures Upgradable(plan, Db(OldBootstrap(plan, version), [INITIAL] + Names(plan.migrations[..recorded])))
  {
    hide WellFormed, CatchesUp, Frozen, OldBootstrap, Pending, Names, NoRepeats, Known;
    var ms, ledger := plan.migrations, [INITIAL] + Names(plan.migrations[..recorded]);
    OldLedger(plan, recorded);
    OldPending(ms, recorded, version, ledger);
    FrozenSuffix(plan.bootstrap, Pending(ms[..recorded], []), Pending(ms[recorded..version], []) + Pending(ms[version..], []));
    OldCatchesUp(plan, version, Pending(ms[recorded..version], []));
  }

  lemma OldPending(ms: seq<Migration>, recorded: nat, version: nat, ledger: seq<string>)
    requires recorded <= version <= |ms|
    requires forall i :: 0 <= i < recorded ==> ms[i].name in ledger
    requires forall i :: 0 <= i < |ms[recorded..]| ==> ms[recorded..][i].name !in ledger
    ensures Pending(ms, ledger) == Pending(ms[recorded..version], []) + Pending(ms[version..], [])
    ensures Pending(ms, []) == Pending(ms[..recorded], []) + (Pending(ms[recorded..version], []) + Pending(ms[version..], []))
  {
    hide Pending;
    PendingDone(ms, ledger, recorded);
    PendingOutside(ms[recorded..], ledger);
    PendingAppend(ms[recorded..version], ms[version..], []);
    assert ms[recorded..version] + ms[version..] == ms[recorded..];
    PendingAppend(ms[..recorded], ms[recorded..], []);
    assert ms[..recorded] + ms[recorded..] == ms;
  }

  lemma OldLedger(plan: Plan, recorded: nat)
    requires WellFormed(plan) && recorded <= |plan.migrations|
    ensures var ms, ledger := plan.migrations, [INITIAL] + Names(plan.migrations[..recorded]);
            && NoRepeats(ledger) && Known(plan, ledger) && INITIAL in ledger
            && (forall i :: 0 <= i < recorded ==> ms[i].name in ledger)
            && (forall i :: 0 <= i < |ms[recorded..]| ==> ms[recorded..][i].name !in ledger)
            && Frozen(plan.bootstrap, Pending(ms, []))
  {
    hide Frozen, Pending, NoRepeats, Known;
    var ms, ledger := plan.migrations, [INITIAL] + Names(plan.migrations[..recorded]);
    assert forall i :: 0 <= i < |ledger| ==> ledger[i] == if i == 0 then INITIAL else ms[i - 1].name;
    OldLedgerNames(plan, ledger, recorded);
  }

  lemma OldLedgerNames(plan: Plan, ledger: seq<string>, recorded: nat)
    requires DistinctNames(plan.migrations) && |ledger| == recorded + 1 <= |plan.migrations| + 1
    requires forall i :: 0 <= i < |plan.migrations| ==> plan.migrations[i].name != INITIAL
    requires forall i :: 0 <= i < |ledger| ==> ledger[i] == if i == 0 then INITIAL else plan.migrations[i - 1].name
    ensures NoRepeats(ledger) && Known(plan, ledger)
    ensures forall i :: 0 <= i < recorded ==> plan.migrations[i].name in ledger
  {
    forall i | 0 <= i < recorded ensures plan.migrations[i].name in ledger {
      assert ledger[i + 1] == plan.migrations[i].name;
    }
  }

  // ---------------------------------------------------------------------------------------------
  // The plan in use
  // ---------------------------------------------------------------------------------------------

  const USER_PROFILE: set<Column> :=
    {"id", "singleton", "display_name", "pronouns", "about", "locale", "timezone", "include_in_prompts",
     "picture_path", "picture_updated_at", "created_at", "updated_at"}

  const SPEND_BUDGET: set<Column> := {"id", "singleton", "limit_usd", "period", "created_at", "updated_at"}

  const CHATS: set<Column> :=
    {"id", "title", "project_id", "agent_id", "team_id", "context_summary", "compacted_before_sequence",
     "created_at", "updated_at"}

  const TEAMS: set<Column> :=
    {"id", "name", "description", "strategy", "max_turns_per_interaction", "created_at", "updated_at"}

  const TEAM_MEMBERS: set<Column> := {"team_id", "agent_id", "role", "position", "is_coordinator", "created_at"}

  const MIGRATIONS := [
    Migration("002_user_profile", [CreateIfNotExists("user_profile", USER_PROFILE)]),
    Migration("003_spend_budget", [CreateIfNotExists("spend_budget", SPEND_BUDGET)]),
    Migration("004_chat_compaction_sequence", [AddColumn("chats", "compacted_before_sequence")]),
    Migration("005_team_orchestration_strategies", [
      AddColumn("teams", "strategy"),
      AddColumn("teams", "max_turns_per_interaction"),
      AddColumn("team_members", "is_coordinator")])]

  /** The bootstrap of today: the tables migrations touch, and any others. */
  function CurrentPlan(others: Schema): Plan {
    Plan(others + map["user_profile" := USER_PROFILE, "spend_budget" := SPEND_BUDGET, "chats" := CHATS,
                      "teams" := TEAMS, "team_members" := TEAM_MEMBERS],
         MIGRATIONS)
  }

  lemma CurrentPlanWellFormed(others: Schema)
    ensures WellFormed(CurrentPlan(others))
  {
    var b := CurrentPlan(others).bootstrap;
    FourPending();
    FrozenColumns(b);
  }

  const STATEMENTS := [
    CreateIfNotExists("user_profile", USER_PROFILE),
    CreateIfNotExists("spend_budget", SPEND_BUDGET),
    AddColumn("chats", "compacted_before_sequence"),
    AddColumn("teams", "strategy"),
    AddColumn("teams", "max_turns_per_interaction"),
    AddColumn("team_members", "is_coordinator")]

  lemma FourPending()
    ensures Pending(MIGRATIONS, []) == STATEMENTS
  {
    var ms := MIGRATIONS;
    assert Pending(ms[4..], []) == [];
    assert ms[3..][1..] == ms[4..] && ms[2..][1..] == ms[3..] && ms[1..][1..] == ms[2..];
    assert Pending(ms[3..], []) == STATEMENTS[3..];
    assert Pending(ms[2..], []) == STATEMENTS[2..];
    assert Pending(ms[1..], []) == STATEMENTS[1..];
  }

  lemma FrozenColumns(b: Schema)
    requires {"user_profile", "spend_budget", "chats", "teams", "team_members"} <= b.Keys
    requires b["user_profile"] == USER_PROFILE && b["spend_budget"] == SPEND_BUDGET && b["chats"] == CHATS
    requires b["teams"] == TEAMS && b["team_members"] == TEAM_MEMBERS
    ensures Frozen(b, STATEMENTS)
  {
    var s := STATEMENTS;
    assert s[5..][1..] == [] && s[4..][1..] == s[5..] && s[3..][1..] == s[4..] && s[2..][1..] == s[3..] && s[1..][1..] == s[2..];
    assert Frozen(b, s[5..]);
    assert Frozen(b, s[4..]);
    assert Frozen(b, s[3..]);
    assert Frozen(b, s[2..]);
    assert Frozen(b, s[1..]);
  }

  /** In particular, the runner converges from every state today's migrations were written for. */
  lemma CurrentPlanConverges(others: Schema, version: nat, recorded: nat, fuels: seq<nat>)
    requires recorded <= version <= |MIGRATIONS|
    ensures var plan := CurrentPlan(others);
            var db := Db(OldBootstrap(plan, version), [INITIAL] + Names(plan.migrations[..recorded]));
            && Run(plan, DiedRuns(plan, db, fuels), 5).1 == Done
            && Current(plan, Run(plan, DiedRuns(plan, db, fuels), 5).0)
            && Current(plan, Run(plan, DiedRuns(plan, Db(map[], []), fuels), 5).0)
  {
    var plan := CurrentPlan(others);
    CurrentPlanWellFormed(others);
    OldVersionUpgradable(plan, version, recorded);
    RunsConverge(plan, Db(OldBootstrap(plan, version), [INITIAL] + Names(plan.migrations[..recorded])), fuels, 5);
    RunsConverge(plan, Db(map[], []), fuels, 5);
  }
}
