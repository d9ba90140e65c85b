/** Statements as the parser delivers them, and the column types they leave behind. */
module Schema {
  import opened Text
  import opened Domain
  import opened SqlTypes

  datatype Kind =
    | UnrecognizedKind
    | DropTable | DropColumn | Truncate | DropSchema | DropDatabase
    | AlterColumnType
    | Delete | Update
    | AlterSequenceRestart
    | DropType | DropSequence | DropExtension
    | RenameTable | RenameColumn
    | DropConstraint | DropIndex
    | DropView | DropFunction | DropTrigger | DropMatView
    | SetNotNull | DropNotNull | SetDefault | DropDefault
    | AddColumn | AddConstraint
    | CreateIndex | CreateTable | CreateView | ReplaceView
    | AddConstraintUsingIndex | ValidateConstraint
    | Grant | Revoke | Comment
    | SetVariable | LockTable | Analyze | Vacuum | VacuumFull
    | ReplaceFunction
    | CreateMatView | CreateMatViewNoData | RefreshMatView | RefreshMatViewConcurrently
    | AddEnumValue
    | CreatePolicy | DropPolicy | EnableRLS | DisableRLS
    | RenameIndex | SetRelOptions | SetLogged | AttachPartition | DetachPartition
    | Insert | Upsert | CreateType | CreateSchema | CreateSequence | CreateExtension | CreateFunction | CreateTrigger

  datatype ConstraintKind = NoConstraint | ForeignKey | CheckConstraint | OtherConstraint

  datatype ColumnDecl = ColumnDecl(name: string, columnType: Option<SqlType>)

  datatype Statement = Statement(
    kind: Kind, sql: string, line: int, relation: string, target: string, newName: string,
    cascade: bool, concurrent: bool, hasWhere: bool, notValid: bool,
    columnType: Option<SqlType>, notNull: bool, hasDefault: bool, volatileDefault: bool,
    constraintKind: ConstraintKind, columns: seq<ColumnDecl>)

  type Tables = map<string, map<string, SqlType>>

  function Key(name: string): string { ToLower(name) }

  function SetIn(tables: Tables, table: string, column: string, t: SqlType): Tables {
    if table == "" || column == "" then tables
    else
      var columns := if Key(table) in tables then tables[Key(table)] else map[];
      tables[Key(table) := columns[Key(column) := t]]
  }

  function RemoveIn(tables: Tables, table: string, column: string): Tables {
    if Key(table) in tables then tables[Key(table) := tables[Key(table)] - {Key(column)}] else tables
  }

  function Lookup(tables: Tables, table: string, column: string): Option<SqlType> {
    if Key(table) in tables && Key(column) in tables[Key(table)]
    then Some(tables[Key(table)][Key(column)]) else None
  }

  function DeclareAll(tables: Tables, table: string, columns: seq<ColumnDecl>): Tables {
    if columns == [] then tables
    else
      var n := |columns| - 1;
      var before := DeclareAll(tables, table, columns[..n]);
      if columns[n].columnType.None? then before
      else SetIn(before, table, columns[n].name, columns[n].columnType.value)
  }

  function ApplyTo(tables: Tables, st: Statement): Tables {
    match st.kind
    case CreateTable => DeclareAll(tables, st.relation, st.columns)
    case AddColumn | AlterColumnType =>
      if st.columnType.None? then tables else SetIn(tables, st.relation, st.target, st.columnType.value)
    case DropColumn => RemoveIn(tables, st.relation, st.target)
    case DropTable => tables - {Key(st.target)}
    case _ => tables
  }

  function Replay(tables: Tables, statements: seq<Statement>): Tables {
    if statements == [] then tables
    else
      var n := |statements| - 1;
      ApplyTo(Replay(tables, statements[..n]), statements[n])
  }

  /** The tracker one changeset threads through classification. */
  class SchemaTracker {
    var tables: Tables

    constructor ()
      ensures tables == map[]
    {
      tables := map[];
    }

    method Set(table: string, column: string, t: SqlType)
      modifies this
      ensures tables == SetIn(old(tables), table, column, t)
    {
      if table == "" || column == "" {
        return;
      }
      if Key(table) !in tables {
        tables := tables[Key(table) := map[]];
      }
      tables := tables[Key(table) := tables[Key(table)][Key(column) := t]];
    }

    method Remove(table: string, column: string)
      modifies this
      ensures tables == RemoveIn(old(tables), table, column)
    {
      if Key(table) in tables {
        tables := tables[Key(table) := tables[Key(table)] - {Key(column)}];
      }
    }

    /** Called after a statement is classified, so an ALTER is judged against the type it replaces. */
    method Apply(st: Statement)
      modifies this
      ensures tables == ApplyTo(old(tables), st)
    {
      match st.kind {
        case CreateTable =>
          for i := 0 to |st.columns|
            invariant tables == DeclareAll(old(tables), st.relation, st.columns[..i])
          {
            assert st.columns[..i + 1][..i] == st.columns[..i];
            if st.columns[i].columnType.Some? {
              Set(st.relation, st.columns[i].name, st.columns[i].columnType.value);
            }
          }
          assert st.columns[..|st.columns|] == st.columns;
        case AddColumn | AlterColumnType =>
          if st.columnType.Some? {
            Set(st.relation, st.target, st.columnType.value);
          }
        case DropColumn => Remove(st.relation, st.target);
        case DropTable => tables := tables - {Key(st.target)};
        case _ =>
      }
    }
  }

  // ---------------------------------------------------------------- the backward search

  /** What one statement says about one column. */
  datatype Effect = Untouched | Declares(t: SqlType) | Drops

  predicate Names(relation: string, name: string, table: string, column: string) {
    relation != "" && name != "" && EqualFold(relation, table) && EqualFold(name, column)
  }

  /** The last column of that name in a CREATE TABLE that came with a type. */
  function LastColumn(relation: string, columns: seq<ColumnDecl>, table: string, column: string): Effect {
    if columns == [] then Untouched
    else
      var n := |columns| - 1;
      if Names(relation, columns[n].name, table, column) && columns[n].columnType.Some?
      then Declares(columns[n].columnType.value)
      else LastColumn(relation, columns[..n], table, column)
  }

  function EffectOn(st: Statement, table: string, column: string): Effect {
    match st.kind
    case CreateTable => LastColumn(st.relation, st.columns, table, column)
    case AddColumn | AlterColumnType =>
      if Names(st.relation, st.target, table, column) && st.columnType.Some? then Declares(st.columnType.value) else Untouched
    case DropColumn =>
      if EqualFold(st.relation, table) && EqualFold(st.target, column) then Drops else Untouched
    case DropTable => if EqualFold(st.target, table) then Drops else Untouched
    case _ => Untouched
  }

  /** A column of that name that comes with a type. */
  predicate TypedColumn(c: ColumnDecl, column: string) {
    c.name != "" && EqualFold(c.name, column) && c.columnType.Some?
  }

  lemma {:induction false} LastColumnMeans(
    relation: string, columns: seq<ColumnDecl>, table: string, column: string, t: SqlType)
    ensures LastColumn(relation, columns, table, column) == Declares(t) <==>
      && relation != "" && EqualFold(relation, table)
      && exists i | 0 <= i < |columns| ::
           && TypedColumn(columns[i], column) && columns[i].columnType == Some(t)
           && forall j | i < j < |columns| :: !TypedColumn(columns[j], column)
    ensures !LastColumn(relation, columns, table, column).Drops?
  {
    if columns != [] {
      var n := |columns| - 1;
      LastColumnMeans(relation, columns[..n], table, column, t);
      assert forall j | 0 <= j < n :: columns[..n][j] == columns[j];
    }
  }

  /**
   What one statement says about a column: it declares the type given for it by ALTER, ADD COLUMN or last
   in CREATE TABLE, and drops it with the column or the table; anything else leaves it as it was.
   */
  lemma EffectMeans(st: Statement, table: string, column: string, t: SqlType)
    ensures EffectOn(st, table, column).Drops? <==>
      || (st.kind.DropTable? && EqualFold(st.target, table))
      || (st.kind.DropColumn? && EqualFold(st.relation, table) && EqualFold(st.target, column))
    ensures EffectOn(st, table, column) == Declares(t) <==>
      || ((st.kind.AddColumn? || st.kind.AlterColumnType?) && st.columnType == Some(t)
          && st.relation != "" && st.target != "" && EqualFold(st.relation, table) && EqualFold(st.target, column))
      || (st.kind.CreateTable? && st.relation != "" && EqualFold(st.relation, table)
          && exists i | 0 <= i < |st.columns| ::
               && TypedColumn(st.columns[i], column) && st.columns[i].columnType == Some(t)
               && forall j | i < j < |st.columns| :: !TypedColumn(st.columns[j], column))
  {
    LastColumnMeans(st.relation, st.columns, table, column, t);
  }

  lemma SetInLookup(tables: Tables, relation: string, name: string, t: SqlType, table: string, column: string)
    ensures Lookup(SetIn(tables, relation, name, t), table, column) ==
            if Names(relation, name, table, column) then Some(t) else Lookup(tables, table, column)
  {
  }

  lemma {:induction false} DeclareAllLookup(
    tables: Tables, relation: string, columns: seq<ColumnDecl>, table: string, column: string)
    ensures Lookup(DeclareAll(tables, relation, columns), table, column) ==
            match LastColumn(relation, columns, table, column)
            case Declares(t) => Some(t)
            case _ => Lookup(tables, table, column)
    ensures !LastColumn(relation, columns, table, column).Drops?
  {
    if columns != [] {
      var n := |columns| - 1;
      DeclareAllLookup(tables, relation, columns[..n], table, column);
      if columns[n].columnType.Some? {
        SetInLookup(DeclareAll(tables, relation, columns[..n]), relation,
                    columns[n].name, columns[n].columnType.value, table, column);
      }
    }
  }

  lemma ApplyLookup(tables: Tables, st: Statement, table: string, column: string)
    ensures Lookup(ApplyTo(tables, st), table, column) ==
            match EffectOn(st, table, column)
            case Declares(t) => Some(t)
            case Drops => None
            case Untouched => Lookup(tables, table, column)
  {
    match st.kind {
      case CreateTable => DeclareAllLookup(tables, st.relation, st.columns, table, column);
      case AddColumn | AlterColumnType =>
        if st.columnType.Some? {
          SetInLookup(tables, st.relation, st.target, st.columnType.value, table, column);
        }
      case _ =>
    }
  }

  /** The last statement to declare the column, with nothing after it that touches the column. */
  ghost predicate LastDeclaration(statements: seq<Statement>, table: string, column: string, k: nat, t: SqlType) {
    && k < |statements|
    && EffectOn(statements[k], table, column) == Declares(t)
    && forall j | k < j < |statements| :: EffectOn(statements[j], table, column) == Untouched
  }

  ghost predicate Declared(statements: seq<Statement>, table: string, column: string, t: SqlType) {
    exists k :: LastDeclaration(statements, table, column, k, t)
  }

  lemma DeclaredStep(statements: seq<Statement>, table: string, column: string, t: SqlType)
    requires statements != []
    ensures var n := |statements| - 1;
      Declared(statements, table, column, t) <==>
        match EffectOn(statements[n], table, column)
        case Declares(u) => t == u
        case Drops => false
        case Untouched => Declared(statements[..n], table, column, t)
  {
    var n := |statements| - 1;
    var effect := EffectOn(statements[n], table, column);
    if effect == Declares(t) {
      assert LastDeclaration(statements, table, column, n, t);
    }
    if k: nat :| LastDeclaration(statements, table, column, k, t) {
      assert k < n ==> LastDeclaration(statements[..n], table, column, k, t);
    }
    if k: nat :| effect == Untouched && LastDeclaration(statements[..n], table, column, k, t) {
      assert LastDeclaration(statements, table, column, k, t);
    }
  }

  /**
   After any run of statements the tracker knows a column's type exactly when searching the run
   backwards finds a declaration of it before any statement that dropped it or its table.
   */
  lemma {:induction false} TrackerIsBackwardSearch(statements: seq<Statement>, table: string, column: string, t: SqlType)
    ensures Lookup(Replay(map[], statements), table, column) == Some(t) <==>
            Declared(statements, table, column, t)
  {
    if statements != [] {
      var n := |statements| - 1;
      TrackerIsBackwardSearch(statements[..n], table, column, t);
      ApplyLookup(Replay(map[], statements[..n]), statements[n], table, column);
      DeclaredStep(statements, table, column, t);
    }
  }

  /** What a run leaves behind depends only on the run: replaying in two parts is replaying once. */
  lemma {:induction false} ReplayConcat(tables: Tables, a: seq<Statement>, b: seq<Statement>)
    ensures Replay(tables, a + b) == Replay(Replay(tables, a), b)
  {
    if b == [] {
      assert a + b == a;
    } else {
      var n := |b| - 1;
      assert (a + b)[..|a + b| - 1] == a + b[..n];
      ReplayConcat(tables, a, b[..n]);
    }
  }
}
