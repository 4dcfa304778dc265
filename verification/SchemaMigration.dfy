/** The identity schema upgrade (db/session.py): the plan that is shown to an operator, and the
    additive columns, back-fills and table creation that are applied.
 */
module SchemaMigration {
  import opened Entities
  import opened Rows

  datatype TableName =
    | Organization | ExternalIdentity | AccountLinkRecovery | DeviceSession | LoginTransaction
    | ProviderLogoutContinuation | IdentityAuditEvent | AuditRetentionState
    | WorkspaceAuditLog | SecretAccessAuditLog
    | Other(name: string)

  /** The cells of a row that are not NULL. */
  type Row = map<string, string>

  datatype Table = Table(columns: set<string>, rows: seq<Row>)

  type Database = map<TableName, Table>

  datatype Column = Column(name: string, default: Option<string>)

  const IDENTITY_SCHEMA_TABLES: set<TableName> := {
    ExternalIdentity, AccountLinkRecovery, DeviceSession, LoginTransaction,
    ProviderLogoutContinuation, IdentityAuditEvent, AuditRetentionState}

  function Nullable(names: seq<string>): (columns: seq<Column>)
    ensures |columns| == |names|
    ensures forall k :: 0 <= k < |names| ==> columns[k] == Column(names[k], None)
  {
    seq(|names|, k requires 0 <= k < |names| => Column(names[k], None))
  }

  /** IDENTITY_ADDITIVE_COLUMNS; a NOT NULL column gives its default to the rows there are. */
  function Additive(table: TableName): seq<Column> {
    match table
    case Organization => [Column("account_kind", Some("legacy")), Column("personal_owner_user_id", None)]
    case ExternalIdentity =>
      Nullable(["account_link_correlation_id", "last_confirmed_at", "last_status_checked_at", "status_check_token"])
    case DeviceSession =>
      Nullable(["previous_secret_hash", "previous_secret_valid_until", "secret_rotated_at",
                "recent_authenticated_at", "device_description"])
    case LoginTransaction => [Column("purpose", Some("login")), Column("requested_session_id", None)]
    case IdentityAuditEvent =>
      Nullable(["related_correlation_id", "actor_user_id", "operator_reason", "request_id",
                "client_ip_address", "user_agent"])
    case WorkspaceAuditLog => Nullable(["request_id", "correlation_id"])
    case SecretAccessAuditLog => Nullable(["request_id", "correlation_id"])
    case _ => []
  }

  const ADDITIVE_TABLES: seq<TableName> := [
    Organization, ExternalIdentity, DeviceSession, LoginTransaction, IdentityAuditEvent,
    WorkspaceAuditLog, SecretAccessAuditLog]

  function Names(columns: seq<Column>): set<string> {
    set k | 0 <= k < |columns| :: columns[k].name
  }

  // ---- the plan ----

  datatype Action = AddAccountClassification | CreateIdentityTables | ExtendIdentityRecords | ExtendAuditCorrelation

  predicate LacksColumns(db: Database, table: TableName) {
    table in db && !(Names(Additive(table)) <= db[table].columns)
  }

  predicate Blank(row: Row, column: string) {
    column !in row || row[column] == ""
  }

  predicate CorrelationPending(db: Database, table: TableName) {
    && table in db
    && (!(Names(Additive(table)) <= db[table].columns) || exists row <- db[table].rows :: Blank(row, "correlation_id"))
  }

  function When(condition: bool, action: Action): seq<Action> {
    if condition then [action] else []
  }

  function Plan(db: Database): seq<Action> {
    When(LacksColumns(db, Organization), AddAccountClassification)
    + When(!(IDENTITY_SCHEMA_TABLES <= db.Keys), CreateIdentityTables)
    + When(LacksColumns(db, ExternalIdentity) || LacksColumns(db, DeviceSession)
           || LacksColumns(db, LoginTransaction) || LacksColumns(db, IdentityAuditEvent), ExtendIdentityRecords)
    + When(CorrelationPending(db, WorkspaceAuditLog) || CorrelationPending(db, SecretAccessAuditLog),
           ExtendAuditCorrelation)
  }

  // ---- the apply ----

  function FillDefault(rows: seq<Row>, column: Column): (after: seq<Row>)
    ensures |after| == |rows|
  {
    seq(|rows|, k requires 0 <= k < |rows| =>
      if column.default.Some? then rows[k][column.name := column.default.value] else rows[k])
  }

  /** ALTER TABLE … ADD COLUMN, when the column is missing. */
  function AddColumn(table: Table, column: Column): Table {
    if column.name in table.columns then table
    else Table(table.columns + {column.name}, FillDefault(table.rows, column))
  }

  function AddColumns(table: Table, columns: seq<Column>): Table {
    if columns == [] then table
    else AddColumn(AddColumns(table, columns[..|columns| - 1]), columns[|columns| - 1])
  }

  /** One UPDATE of a back-fill: a constant or a prefixed id where a text is missing or empty,
      or a copy of another column where a time is missing. */
  datatype Rule =
    | FillText(column: string, value: string)
    | FillCopy(column: string, source: string)
    | FillPrefixedId(column: string, prefix: string)

  function Rules(table: TableName): seq<Rule> {
    match table
    case Organization => [FillText("account_kind", "legacy")]
    case ExternalIdentity =>
      [FillCopy("last_confirmed_at", "updated_at"), FillCopy("last_status_checked_at", "last_confirmed_at")]
    case DeviceSession =>
      [FillCopy("secret_rotated_at", "created_at"),
       FillText("device_description", "Unknown browser on Unknown device")]
    case WorkspaceAuditLog => [FillPrefixedId("correlation_id", "legacy_workspace_audit_")]
    case SecretAccessAuditLog => [FillPrefixedId("correlation_id", "legacy_secret_access_audit_")]
    case _ => []
  }

  /** Whether the update changes the row. */
  predicate Fires(row: Row, rule: Rule) {
    match rule
    case FillText(column, _) => Blank(row, column)
    case FillCopy(column, source) => column !in row && source in row
    case FillPrefixedId(column, _) => Blank(row, column) && "id" in row
  }

  function Fill(row: Row, rule: Rule): Row {
    if !Fires(row, rule) then row
    else
      match rule
      case FillText(column, value) => row[column := value]
      case FillCopy(column, source) => row[column := row[source]]
      case FillPrefixedId(column, prefix) => row[column := prefix + row["id"]]
  }

  function FillAll(row: Row, rules: seq<Rule>): Row {
    if rules == [] then row else Fill(FillAll(row, rules[..|rules| - 1]), rules[|rules| - 1])
  }

  function FillRows(rows: seq<Row>, rules: seq<Rule>): (after: seq<Row>)
    ensures |after| == |rows|
  {
    seq(|rows|, k requires 0 <= k < |rows| => FillAll(rows[k], rules))
  }

  function UpgradeTable(name: TableName, table: Table): Table {
    var extended := AddColumns(table, Additive(name));
    extended.(rows := FillRows(extended.rows, Rules(name)))
  }

  /** _upgrade_identity_additive_columns */
  function Upgrade(db: Database): Database {
    map name | name in db :: UpgradeTable(name, db[name])
  }

  /** `metadata.create_all`: tables that are missing are created, with all their columns. */
  function CreateAll(db: Database, metadata: map<TableName, set<string>>): Database {
    map name | name in db.Keys + metadata.Keys :: if name in db then db[name] else Table(metadata[name], [])
  }

  function Apply(db: Database, metadata: map<TableName, set<string>>): Database {
    CreateAll(Upgrade(db), metadata)
  }

  /** The models declare every identity table, and every additive column of their tables. */
  ghost predicate Declares(metadata: map<TableName, set<string>>) {
    && IDENTITY_SCHEMA_TABLES <= metadata.Keys
    && forall table <- metadata :: Names(Additive(table)) <= metadata[table]
  }

  /** `id` is the primary key of the audit tables. */
  ghost predicate HasIds(db: Database) {
    forall table <- db :: table == WorkspaceAuditLog || table == SecretAccessAuditLog ==>
      forall row <- db[table].rows :: "id" in row
  }

  // ---- columns ----

  lemma {:induction false} AddColumnsMeans(table: Table, columns: seq<Column>)
    ensures AddColumns(table, columns).columns == table.columns + Names(columns)
    ensures |AddColumns(table, columns).rows| == |table.rows|
    ensures forall k :: 0 <= k < |table.rows| ==> table.rows[k].Keys <= AddColumns(table, columns).rows[k].Keys
    ensures Names(columns) <= table.columns ==> AddColumns(table, columns) == table
    decreases |columns|
  {
    if columns != [] {
      var init, last := columns[..|columns| - 1], columns[|columns| - 1];
      AddColumnsMeans(table, init);
      NamesOneMore(init, last);
      assert columns == init + [last];
    }
  }

  lemma NamesOneMore(columns: seq<Column>, column: Column)
    ensures Names(columns + [column]) == Names(columns) + {column.name}
  {
    var more := columns + [column];
    assert more[|columns|] == column;
    forall name <- Names(columns) ensures name in Names(more) {
      var k :| 0 <= k < |columns| && columns[k].name == name;
      assert more[k].name == name;
    }
  }

  // ---- back-fills ----

  /** Values are only added: a cell that is set keeps its value unless it was empty. */
  ghost predicate Keeps(a: Row, b: Row) {
    forall column <- a :: column in b && (a[column] != "" ==> b[column] == a[column])
  }

  predicate Fillable(rules: seq<Rule>) {
    forall rule <- rules :: (rule.FillText? ==> rule.value != "") && (rule.FillPrefixedId? ==> rule.prefix != "")
  }

  lemma FillShows(row: Row, rule: Rule)
    requires Fillable([rule])
    ensures Keeps(row, Fill(row, rule))
    ensures Fires(row, rule) ==>
      rule.column in Fill(row, rule) && (rule.column in row ==> Fill(row, rule)[rule.column] != "")
  {
    assert rule in [rule];
  }

  lemma {:induction false} FillAllKeeps(row: Row, rules: seq<Rule>)
    requires Fillable(rules)
    ensures Keeps(row, FillAll(row, rules))
    decreases |rules|
  {
    if rules != [] {
      FillAllKeeps(row, rules[..|rules| - 1]);
      FillShows(FillAll(row, rules[..|rules| - 1]), rules[|rules| - 1]);
    }
  }

  ghost predicate SomeFires(row: Row, rules: seq<Rule>) {
    exists rule <- rules :: Fires(row, rule)
  }

  /** A row is left as it is exactly when no rule fires on it. */
  lemma {:induction false} UnchangedMeansNoneFires(row: Row, rules: seq<Rule>)
    requires Fillable(rules)
    ensures FillAll(row, rules) == row <==> !SomeFires(row, rules)
    decreases |rules|
  {
    if rules != [] {
      var init, last := rules[..|rules| - 1], rules[|rules| - 1];
      UnchangedMeansNoneFires(row, init);
      FillAllKeeps(row, init);
      FillShows(FillAll(row, init), last);
      assert forall rule :: rule in rules <==> rule in init || rule == last;
      if Fill(FillAll(row, init), last) == row {
        KeepsBothWays(row, FillAll(row, init));
      }
    }
  }

  lemma KeepsBothWays(a: Row, b: Row)
    requires Keeps(a, b) && Keeps(b, a)
    ensures a == b
  {
    assert a.Keys == b.Keys;
  }

  lemma RulesAreFillable(table: TableName)
    ensures Fillable(Rules(table))
  {
  }

  // ---- plan against apply ----

  lemma UpgradeCompletes(name: TableName, table: Table)
    ensures UpgradeTable(name, table).columns == table.columns + Names(Additive(name))
  {
    AddColumnsMeans(table, Additive(name));
  }

  lemma CorrelationIsFilled(name: TableName, row: Row)
    requires (name == WorkspaceAuditLog || name == SecretAccessAuditLog) && "id" in row
    ensures !Blank(FillAll(row, Rules(name)), "correlation_id")
  {
    OneRule(row, Rules(name));
  }

  lemma AuditRowsGetCorrelation(name: TableName, table: Table)
    requires name == WorkspaceAuditLog || name == SecretAccessAuditLog
    requires forall row <- table.rows :: "id" in row
    ensures forall row <- UpgradeTable(name, table).rows :: !Blank(row, "correlation_id")
  {
    hide AddColumns, Additive, Names, FillAll, Rules, Blank;
    var extended := AddColumns(table, Additive(name));
    AddColumnsMeans(table, Additive(name));
    forall k | 0 <= k < |extended.rows| ensures !Blank(FillAll(extended.rows[k], Rules(name)), "correlation_id") {
      assert table.rows[k] in table.rows && "id" in table.rows[k].Keys;
      CorrelationIsFilled(name, extended.rows[k]);
    }
  }

  /** From any starting schema and rows, applying the upgrade and creating the missing tables
      leaves nothing to plan. */
  lemma PlanIsEmptyAfterApply(db: Database, metadata: map<TableName, set<string>>)
    requires Declares(metadata) && HasIds(db)
    ensures Plan(Apply(db, metadata)) == []
  {
    hide UpgradeTable;
    var after := Apply(db, metadata);
    forall table | table in after ensures !LacksColumns(after, table) {
      if table in db {
        UpgradeCompletes(table, db[table]);
      }
    }
    forall table | table == WorkspaceAuditLog || table == SecretAccessAuditLog
      ensures !CorrelationPending(after, table)
    {
      if table in db {
        AuditRowsGetCorrelation(table, db[table]);
      }
    }
  }

  ghost predicate SameColumns(a: Database, b: Database) {
    forall table <- a :: table in b && b[table].columns == a[table].columns
  }

  ghost predicate SameAuditRows(a: Database, b: Database) {
    forall table <- a :: table == WorkspaceAuditLog || table == SecretAccessAuditLog ==>
      table in b && b[table].rows == a[table].rows
  }

  lemma AdditiveTablesAreListed(table: TableName)
    ensures table in ADDITIVE_TABLES || Additive(table) == []
  {
    match table
    case Organization => assert ADDITIVE_TABLES[0] == table;
    case ExternalIdentity => assert ADDITIVE_TABLES[1] == table;
    case DeviceSession => assert ADDITIVE_TABLES[2] == table;
    case LoginTransaction => assert ADDITIVE_TABLES[3] == table;
    case IdentityAuditEvent => assert ADDITIVE_TABLES[4] == table;
    case WorkspaceAuditLog => assert ADDITIVE_TABLES[5] == table;
    case SecretAccessAuditLog => assert ADDITIVE_TABLES[6] == table;
    case _ =>
  }

  lemma NothingPlanned(db: Database)
    ensures Plan(db) == [] <==>
      && !LacksColumns(db, Organization) && IDENTITY_SCHEMA_TABLES <= db.Keys
      && !LacksColumns(db, ExternalIdentity) && !LacksColumns(db, DeviceSession)
      && !LacksColumns(db, LoginTransaction) && !LacksColumns(db, IdentityAuditEvent)
      && !CorrelationPending(db, WorkspaceAuditLog) && !CorrelationPending(db, SecretAccessAuditLog)
  {
    hide LacksColumns, CorrelationPending;
  }

  lemma EmptyPlanMeans(db: Database)
    ensures Plan(db) == [] <==>
      (&& IDENTITY_SCHEMA_TABLES <= db.Keys
       && (forall table <- db :: !LacksColumns(db, table))
       && !CorrelationPending(db, WorkspaceAuditLog) && !CorrelationPending(db, SecretAccessAuditLog))
  {
    hide Plan, Names, Additive;
    NothingPlanned(db);
    forall table | table in db && LacksColumns(db, table)
      ensures table in ADDITIVE_TABLES
      ensures table == WorkspaceAuditLog || table == SecretAccessAuditLog ==> CorrelationPending(db, table)
    {
      LacksNoOther(db, table);
    }
  }

  /** Only the tables with additive columns can lack one, and the plan looks at each of them. */
  lemma LacksNoOther(db: Database, table: TableName)
    requires table in db && LacksColumns(db, table)
    ensures table in ADDITIVE_TABLES
    ensures table == WorkspaceAuditLog || table == SecretAccessAuditLog ==> CorrelationPending(db, table)
  {
    AdditiveTablesAreListed(table);
  }

  lemma AuditRowsUnchanged(name: TableName, table: Table)
    requires name == WorkspaceAuditLog || name == SecretAccessAuditLog
    requires Names(Additive(name)) <= table.columns
    requires forall row <- table.rows :: "id" in row
    ensures UpgradeTable(name, table).rows == table.rows <==> forall row <- table.rows :: !Blank(row, "correlation_id")
  {
    AddColumnsMeans(table, Additive(name));
    var rules := Rules(name);
    var after := UpgradeTable(name, table).rows;
    forall k | 0 <= k < |table.rows| ensures after[k] == table.rows[k] <==> !Blank(table.rows[k], "correlation_id") {
      assert rules[..0] == [] && FillAll(table.rows[k], rules) == Fill(table.rows[k], rules[0]);
      assert table.rows[k] in table.rows;
      FillShows(table.rows[k], rules[0]);
    }
    if after == table.rows {
      forall row <- table.rows ensures !Blank(row, "correlation_id") {
        var k :| 0 <= k < |table.rows| && table.rows[k] == row;
      }
    }
  }

  /** Plan agrees with apply: the plan is empty exactly when every identity table exists, and
      applying the upgrade would add no column to any table and back-fill no audit row. */
  lemma PlanAgreesWithApply(db: Database)
    requires HasIds(db)
    ensures Plan(db) == [] <==>
      IDENTITY_SCHEMA_TABLES <= db.Keys && SameColumns(db, Upgrade(db)) && SameAuditRows(db, Upgrade(db))
  {
    hide UpgradeTable, Plan;
    EmptyPlanMeans(db);
    forall table <- db ensures Upgrade(db)[table].columns == db[table].columns <==> !LacksColumns(db, table) {
      UpgradeCompletes(table, db[table]);
    }
    forall table | table in db && (table == WorkspaceAuditLog || table == SecretAccessAuditLog)
      && !LacksColumns(db, table)
      ensures Upgrade(db)[table].rows == db[table].rows <==> !CorrelationPending(db, table)
    {
      AuditRowsUnchanged(table, db[table]);
    }
  }

  ghost predicate NeedsFill(db: Database, table: TableName)
    requires table in db
  {
    exists row <- db[table].rows :: SomeFires(row, Rules(table))
  }

  lemma TableUnchanged(name: TableName, table: Table)
    ensures UpgradeTable(name, table) == table <==>
      Names(Additive(name)) <= table.columns && forall row <- table.rows :: !SomeFires(row, Rules(name))
  {
    AddColumnsMeans(table, Additive(name));
    RulesAreFillable(name);
    if Names(Additive(name)) <= table.columns {
      var after := UpgradeTable(name, table).rows;
      forall k | 0 <= k < |table.rows| ensures after[k] == table.rows[k] <==> !SomeFires(table.rows[k], Rules(name)) {
        UnchangedMeansNoneFires(table.rows[k], Rules(name));
      }
      if after == table.rows {
        forall row <- table.rows ensures !SomeFires(row, Rules(name)) {
          var k :| 0 <= k < |table.rows| && table.rows[k] == row;
        }
      }
    }
  }

  /** An empty plan does not mean that an apply changes nothing. It changes nothing exactly
      when no table lacks a column and no row of any table, identity tables included, still
      has a cell to fill. */
  lemma ApplyChangesNothing(db: Database)
    ensures Upgrade(db) == db <==> forall table <- db :: !LacksColumns(db, table) && !NeedsFill(db, table)
  {
    hide UpgradeTable, SomeFires, Names;
    forall table <- db
      ensures Upgrade(db)[table] == db[table] <==> !LacksColumns(db, table) && !NeedsFill(db, table)
    {
      TableUnchanged(table, db[table]);
    }
    if Upgrade(db) == db {
      forall table <- db ensures !LacksColumns(db, table) && !NeedsFill(db, table) {
        assert Upgrade(db)[table] == db[table];
      }
    }
  }

  lemma FilledOnce(name: TableName, row: Row)
    ensures !SomeFires(FillAll(row, Rules(name)), Rules(name))
  {
    var rules := Rules(name);
    match name
    case ExternalIdentity =>
      assert |"updated_at"| == 10 && |"last_confirmed_at"| == 17 && |"last_status_checked_at"| == 22;
      TwoRules(row, rules);
    case DeviceSession =>
      assert |"secret_rotated_at"| == 17 && |"device_description"| == 18 && |"created_at"| == 10;
      TwoRules(row, rules);
    case Organization => OneRule(row, rules);
    case WorkspaceAuditLog => OneRule(row, rules);
    case SecretAccessAuditLog => OneRule(row, rules);
    case _ =>
  }

  lemma OneRule(row: Row, rules: seq<Rule>)
    requires |rules| == 1
    ensures FillAll(row, rules) == Fill(row, rules[0])
  {
    assert rules[..0] == [];
  }

  lemma TwoRules(row: Row, rules: seq<Rule>)
    requires |rules| == 2
    ensures FillAll(row, rules) == Fill(Fill(row, rules[0]), rules[1])
  {
    assert rules[..1] == [rules[0]];
    OneRule(row, rules[..1]);
  }

  /** A second apply changes nothing at all. */
  lemma UpgradeIsIdempotent(db: Database)
    ensures Upgrade(Upgrade(db)) == Upgrade(db)
  {
    hide SomeFires, FillAll, Names;
    var once := Upgrade(db);
    forall table <- once ensures !LacksColumns(once, table) && !NeedsFill(once, table) {
      UpgradeCompletes(table, db[table]);
      var extended := AddColumns(db[table], Additive(table)).rows;
      forall k | 0 <= k < |extended| ensures !SomeFires(once[table].rows[k], Rules(table)) {
        FilledOnce(table, extended[k]);
      }
    }
    ApplyChangesNothing(once);
  }

  /** The plan does not look at identity rows: whatever the schema, an organization without an
      account kind is left out of an empty plan, and the next apply rewrites it. */
  lemma PlanMissesIdentityRows(db: Database, row: Row)
    requires Plan(db) == [] && Organization in db && Blank(row, "account_kind")
    ensures var more := WithOrganization(db, row);
      Plan(more) == [] && Upgrade(more) != more
  {
    hide Plan, Names, LacksColumns, SomeFires, Upgrade, CorrelationPending;
    var more := WithOrganization(db, row);
    EmptyPlanMeans(db);
    EmptyPlanMeans(more);
    forall table <- more ensures LacksColumns(more, table) == LacksColumns(db, table) {
      SchemaIsSame(db, row, table);
    }
    SchemaIsSame(db, row, WorkspaceAuditLog);
    SchemaIsSame(db, row, SecretAccessAuditLog);
    ApplyChangesNothing(more);
    BlankNeedsFill(db, row);
  }

  function WithOrganization(db: Database, row: Row): Database
    requires Organization in db
  {
    db[Organization := db[Organization].(rows := db[Organization].rows + [row])]
  }

  lemma SchemaIsSame(db: Database, row: Row, table: TableName)
    requires Organization in db
    ensures LacksColumns(WithOrganization(db, row), table) == LacksColumns(db, table)
    ensures table != Organization ==>
      CorrelationPending(WithOrganization(db, row), table) == CorrelationPending(db, table)
  {
  }

  lemma BlankNeedsFill(db: Database, row: Row)
    requires Organization in db && Blank(row, "account_kind")
    ensures NeedsFill(WithOrganization(db, row), Organization)
  {
    var rows := WithOrganization(db, row)[Organization].rows;
    assert rows[|db[Organization].rows|] == row;
    var rule := Rules(Organization)[0];
    assert rule in Rules(Organization) && Fires(row, rule);
    assert row in rows && SomeFires(row, Rules(Organization));
  }

  /** Every identity table and an organization table, with their additive columns and no rows. */
  function EmptyIdentityDatabase(): Database {
    map name | name in IDENTITY_SCHEMA_TABLES + {Organization} :: Table(Names(Additive(name)), [])
  }

  /** Such a database: one organization, and nothing but its id. */
  lemma PlanMissesAnOrganization()
    ensures var db := WithOrganization(EmptyIdentityDatabase(), map["id" := "org_1"]);
      Plan(db) == [] && Upgrade(db) != db
  {
    hide Plan, Upgrade, Additive, Names;
    EmptyPlanMeans(EmptyIdentityDatabase());
    PlanMissesIdentityRows(EmptyIdentityDatabase(), map["id" := "org_1"]);
  }

  /** An upgrade never overwrites a value: rows stay where they are, and a cell that is set keeps
      its value unless it was empty. An organization without an account kind becomes a legacy
      one, and an audit row without a correlation gets one that is made from its id. */
  lemma UpgradeFillsOnly(db: Database, table: TableName, k: nat)
    requires table in db && k < |db[table].rows|
    ensures var before := db[table].rows[k];
      table in Upgrade(db) && k < |Upgrade(db)[table].rows| == |db[table].rows| &&
      var after := Upgrade(db)[table].rows[k];
      && (Names(Additive(table)) <= db[table].columns ==> Keeps(before, after))
      && (table == Organization && Names(Additive(table)) <= db[table].columns && Blank(before, "account_kind") ==>
            "account_kind" in after && after["account_kind"] == "legacy")
      && (Names(Additive(table)) <= db[table].columns && Blank(before, "correlation_id") && "id" in before ==>
            && (table == WorkspaceAuditLog ==>
                  "correlation_id" in after
                  && after["correlation_id"] == "legacy_workspace_audit_" + before["id"])
            && (table == SecretAccessAuditLog ==>
                  "correlation_id" in after
                  && after["correlation_id"] == "legacy_secret_access_audit_" + before["id"]))
  {
    hide Names, Additive;
    var rules := Rules(table);
    AddColumnsMeans(db[table], Additive(table));
    RulesAreFillable(table);
    FillAllKeeps(db[table].rows[k], rules);
    if table == Organization || table == WorkspaceAuditLog || table == SecretAccessAuditLog {
      OneRule(db[table].rows[k], rules);
    }
  }

  lemma NamesOfOne(c: Column)
    ensures Names([c]) == {c.name}
  {
    assert [c][0].name == c.name;
  }

  /** The columns that decide whether an upgrade is planned, and what a NOT NULL one is filled with. */
  lemma OrganizationColumns(db: Database)
    requires Organization in db
    ensures AddAccountClassification in Plan(db) <==>
      !({"account_kind", "personal_owner_user_id"} <= db[Organization].columns)
    ensures {"account_kind", "personal_owner_user_id"} <= Upgrade(db)[Organization].columns
  {
    hide CorrelationPending;
    var columns := Additive(Organization);
    assert columns == [columns[0]] + [columns[1]];
    NamesOfOne(columns[0]);
    NamesOneMore([columns[0]], columns[1]);
    assert Names(columns) == {"account_kind", "personal_owner_user_id"};
    UpgradeCompletes(Organization, db[Organization]);
  }

  // ---- the code as it runs ----

  /** The tables that have a back-fill, in the order of the updates. */
  const FILLED_TABLES: seq<TableName> := [
    Organization, ExternalIdentity, DeviceSession, WorkspaceAuditLog, SecretAccessAuditLog]

  lemma FilledTablesAreListed(table: TableName)
    ensures table in FILLED_TABLES || Rules(table) == []
  {
    match table
    case Organization => assert FILLED_TABLES[0] == table;
    case ExternalIdentity => assert FILLED_TABLES[1] == table;
    case DeviceSession => assert FILLED_TABLES[2] == table;
    case WorkspaceAuditLog => assert FILLED_TABLES[3] == table;
    case SecretAccessAuditLog => assert FILLED_TABLES[4] == table;
    case _ =>
  }

  lemma TablesAreListedOnce(k: nat)
    ensures k < |ADDITIVE_TABLES| ==> ADDITIVE_TABLES[k] !in ADDITIVE_TABLES[..k]
    ensures k < |FILLED_TABLES| ==> FILLED_TABLES[k] !in FILLED_TABLES[..k]
  {
  }

  function ExtendTable(name: TableName, table: Table): Table { AddColumns(table, Additive(name)) }

  function BackfillTable(name: TableName, table: Table): Table { table.(rows := FillRows(table.rows, Rules(name))) }

  /** A change made to the named tables only. */
  ghost function ChangedIn(db: Database, names: seq<TableName>, change: (TableName, Table) -> Table): Database {
    map name | name in db :: if name in names then change(name, db[name]) else db[name]
  }

  lemma ChangedOneMore(db: Database, names: seq<TableName>, name: TableName, change: (TableName, Table) -> Table)
    requires name in db && name !in names
    ensures ChangedIn(db, names + [name], change) == ChangedIn(db, names, change)[name := change(name, db[name])]
  {
  }

  lemma ChangedMissing(db: Database, names: seq<TableName>, name: TableName, change: (TableName, Table) -> Table)
    requires name !in db
    ensures ChangedIn(db, names + [name], change) == ChangedIn(db, names, change)
  {
  }

  lemma FillRowsOneMore(rows: seq<Row>, rules: seq<Rule>, k: nat)
    requires k < |rules|
    ensures FillRows(rows, rules[..k + 1])
         == seq(|rows|, i requires 0 <= i < |rows| => Fill(FillRows(rows, rules[..k])[i], rules[k]))
  {
    TakeOfTake(rules, k);
    forall i | 0 <= i < |rows|
      ensures FillAll(rows[i], rules[..k + 1]) == Fill(FillAll(rows[i], rules[..k]), rules[k])
    {
      assert rules[..k + 1][k] == rules[k];
    }
  }

  class IdentityDatabase {
    var tables: Database

    constructor (existing: Database)
      ensures tables == existing
    {
      tables := existing;
    }

    method PlanIdentitySchemaMigration() returns (actions: seq<Action>)
      ensures actions == Plan(tables)
    {
      hide Names, Additive, CorrelationPending;
      actions := [];
      if Organization in tables && !(Names(Additive(Organization)) <= tables[Organization].columns) {
        actions := actions + [AddAccountClassification];
      }
      if !(IDENTITY_SCHEMA_TABLES <= tables.Keys) {
        actions := actions + [CreateIdentityTables];
      }
      if LacksColumns(tables, ExternalIdentity) || LacksColumns(tables, DeviceSession)
         || LacksColumns(tables, LoginTransaction) || LacksColumns(tables, IdentityAuditEvent) {
        actions := actions + [ExtendIdentityRecords];
      }
      var pending := AuditCorrelationPending();
      if pending {
        actions := actions + [ExtendAuditCorrelation];
      }
    }

    method AuditCorrelationPending() returns (pending: bool)
      ensures pending <==>
        CorrelationPending(tables, WorkspaceAuditLog) || CorrelationPending(tables, SecretAccessAuditLog)
    {
      hide Names, Additive;
      var audits := [WorkspaceAuditLog, SecretAccessAuditLog];
      pending := false;
      for k := 0 to |audits|
        invariant pending <==> exists i :: 0 <= i < k && CorrelationPending(tables, audits[i])
      {
        if audits[k] in tables {
          if !(Names(Additive(audits[k])) <= tables[audits[k]].columns) {
            pending := true;
          } else if exists row <- tables[audits[k]].rows :: Blank(row, "correlation_id") {
            pending := true;
          }
        }
      }
      assert pending <==> CorrelationPending(tables, audits[0]) || CorrelationPending(tables, audits[1]);
    }

    method AddMissingColumns(name: TableName)
      requires name in tables
      modifies this
      ensures tables == old(tables)[name := ExtendTable(name, old(tables)[name])]
    {
      hide Additive, FillDefault;
      var columns := Additive(name);
      for k := 0 to |columns|
        invariant tables == old(tables)[name := AddColumns(old(tables)[name], columns[..k])]
      {
        TakeOfTake(columns, k);
        var column := columns[k];
        if column.name !in tables[name].columns {
          var table := tables[name];
          tables := tables[name := Table(table.columns + {column.name}, FillDefault(table.rows, column))];
        }
      }
      TakeAll(columns);
    }

    /** The updates of one table, one after the other. */
    method RunUpdates(name: TableName)
      requires name in tables
      modifies this
      ensures tables == old(tables)[name := BackfillTable(name, old(tables)[name])]
    {
      hide Fill, FillAll;
      var rules := Rules(name);
      var table := tables[name];
      NothingFilled(table.rows);
      for k := 0 to |rules|
        invariant tables == old(tables)[name := table.(rows := FillRows(table.rows, rules[..k]))]
      {
        FillRowsOneMore(table.rows, rules, k);
        var rows := tables[name].rows;
        rows := seq(|rows|, i requires 0 <= i < |rows| => Fill(rows[i], rules[k]));
        assert rows == FillRows(table.rows, rules[..k + 1]);
        tables := tables[name := tables[name].(rows := rows)];
      }
      TakeAll(rules);
    }

    method UpgradeIdentityAdditiveColumns()
      modifies this
      ensures tables == Upgrade(old(tables))
    {
      hide ExtendTable, BackfillTable, Additive, Rules;
      for k := 0 to |ADDITIVE_TABLES|
        invariant tables == ChangedIn(old(tables), ADDITIVE_TABLES[..k], ExtendTable)
      {
        TablesAreListedOnce(k);
        TakeOneMore(ADDITIVE_TABLES, k);
        var name := ADDITIVE_TABLES[k];
        if name in tables {
          ChangedOneMore(old(tables), ADDITIVE_TABLES[..k], name, ExtendTable);
          AddMissingColumns(name);
        } else {
          ChangedMissing(old(tables), ADDITIVE_TABLES[..k], name, ExtendTable);
        }
      }
      ghost var extended := tables;
      for k := 0 to |FILLED_TABLES|
        invariant tables == ChangedIn(extended, FILLED_TABLES[..k], BackfillTable)
      {
        TablesAreListedOnce(k);
        TakeOneMore(FILLED_TABLES, k);
        var name := FILLED_TABLES[k];
        if name in tables {
          ChangedOneMore(extended, FILLED_TABLES[..k], name, BackfillTable);
          RunUpdates(name);
        } else {
          ChangedMissing(extended, FILLED_TABLES[..k], name, BackfillTable);
        }
      }
      TakeAll(ADDITIVE_TABLES);
      TakeAll(FILLED_TABLES);
      AllTablesChanged(old(tables));
    }

    /** init_db, as far as the identity schema goes. */
    method InitIdentitySchema(metadata: map<TableName, set<string>>)
      modifies this
      ensures tables == Apply(old(tables), metadata)
    {
      UpgradeIdentityAdditiveColumns();
      tables := CreateAll(tables, metadata);
    }
  }

  lemma NothingFilled(rows: seq<Row>)
    ensures FillRows(rows, []) == rows
  {
  }

  lemma TableChanged(name: TableName, table: Table)
    ensures var extended := if name in ADDITIVE_TABLES then ExtendTable(name, table) else table;
      (if name in FILLED_TABLES then BackfillTable(name, extended) else extended) == UpgradeTable(name, table)
  {
    hide FillRows, AddColumns;
    AdditiveTablesAreListed(name);
    AddNothing(table);
    FilledTablesAreListed(name);
    NothingFilled(AddColumns(table, Additive(name)).rows);
  }

  lemma AddNothing(table: Table)
    ensures AddColumns(table, []) == table
  {
  }

  lemma AllTablesChanged(db: Database)
    ensures ChangedIn(ChangedIn(db, ADDITIVE_TABLES, ExtendTable), FILLED_TABLES, BackfillTable) == Upgrade(db)
  {
    hide UpgradeTable, ExtendTable, BackfillTable;
    forall name <- db {
      TableChanged(name, db[name]);
    }
  }
}
