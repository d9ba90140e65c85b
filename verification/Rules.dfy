/** The PostgreSQL classification table, statement by statement. */
module Rules {
  import opened Domain
  import opened SqlTypes
  import opened Schema

  /** One row of the table resolved for one statement; `undoable` says whether it emits an undo step. */
  datatype Classification = Classification(rule: nat, reversibility: Reversibility, lock: LockHazard, undoable: bool)

  function Digit(n: nat): char
    requires n < 10
  {
    ('0' as int + n) as char
  }

  /** "PG" and three digits. */
  function RuleName(rule: nat): string {
    "PG" + [Digit(rule / 100 % 10), Digit(rule / 10 % 10), Digit(rule % 10)]
  }

  // ---------------------------------------------------------------- the published table

  /** The rows of the rule table with each verdict, read off the document column by column. */
  predicate IrreversibleRule(r: nat) { 1 <= r <= 6 || 8 <= r <= 11 || r == 48 || r == 52 || r == 59 }
  predicate CostlyRule(r: nat) {
    r == 7 || 12 <= r <= 18 || r == 28 || r == 29 || r == 43 || r == 50 || 53 <= r <= 55 || r == 57 || r == 58
  }

  predicate ExclusiveRule(r: nat) {
    || 1 <= r <= 5 || r == 8 || r == 11 || r == 14 || r == 18 || r == 23 || r == 27 || r == 29 || r == 35
    || r == 38 || r == 47
  }

  predicate RewriteRule(r: nat) { r == 6 || r == 7 || r == 19 || r == 55 }
  predicate ScanRule(r: nat) { r == 17 || r == 21 || r == 31 || r == 45 || r == 47 || r == 56 }
  predicate ShortRule(r: nat) {
    || r == 9 || r == 10 || r == 12 || r == 13 || r == 16 || r == 22 || r == 26 || r == 28 || r == 30
    || r == 32 || r == 33 || r == 39 || r == 43 || r == 44 || 48 <= r <= 54 || 57 <= r <= 59
  }

  predicate NoLockRule(r: nat) {
    r == 15 || r == 20 || r == 24 || r == 25 || r == 34 || r == 36 || r == 37 || 40 <= r <= 42 || r == 46 || r == 57
  }

  function TableVerdict(rule: nat): Reversibility {
    if IrreversibleRule(rule) then Irreversible
    else if CostlyRule(rule) then Costly
    else if rule == 27 then Unknown
    else Reversible
  }

  predicate TableLock(rule: nat, lock: LockHazard) {
    match lock
    case LockExclusive => ExclusiveRule(rule)
    case LockTableRewrite => RewriteRule(rule)
    case LockFullScan => ScanRule(rule)
    case LockShort => ShortRule(rule)
    case LockNone => NoLockRule(rule)
    case OtherLock(_) => false
  }

  predicate InTable(c: Classification) {
    1 <= c.rule <= 59 && c.reversibility == TableVerdict(c.rule) && TableLock(c.rule, c.lock)
  }

  /**
   The rules whose verdict is survivable and that still record no undo step: exactly these leave a
   hole in a rollback plan that does not say it has one.
   */
  predicate SilentRule(r: nat) { r == 50 || r == 54 || r == 55 || r == 57 || r == 58 }

  predicate UndoIsPromised(c: Classification) {
    && (c.undoable ==> c.reversibility.Reversible? || c.reversibility.Costly?)
    && (!c.undoable && (c.reversibility.Reversible? || c.reversibility.Costly?) <==> SilentRule(c.rule))
  }

  /** On the published table, with an undo step exactly where the table promises one. */
  predicate Charted(c: Classification) {
    InTable(c) && UndoIsPromised(c)
  }

  /** The statements of the table's first column: what destroys data or what holds it. */
  predicate NamesDestroying(r: nat, kind: Kind) {
    || (r == 1 && kind.DropTable?)
    || (r == 2 && kind.DropColumn?)
    || (r == 3 && kind.Truncate?)
    || (r == 4 && (kind.DropSchema? || kind.DropDatabase?))
    || (r == 10 && kind.AlterSequenceRestart?)
    || (r == 11 && (kind.DropType? || kind.DropSequence? || kind.DropExtension?))
  }

  /** The statements of the table's first column: renames, and drops of what a definition brings back. */
  predicate NamesRenaming(r: nat, kind: Kind) {
    || (r == 12 && (kind.RenameTable? || kind.RenameColumn?))
    || (r == 13 && kind.DropConstraint?)
    || (r == 16 && (kind.DropView? || kind.DropFunction? || kind.DropTrigger?))
    || (r == 29 && kind.DropMatView?)
    || (r == 50 && kind.DropPolicy?)
    || (r == 53 && kind.RenameIndex?)
  }

  /** The statements of the table's first column: settings of columns, tables and sessions. */
  predicate NamesSetting(r: nat, kind: Kind) {
    || (r == 17 && kind.SetNotNull?)
    || (r == 26 && (kind.DropNotNull? || kind.SetDefault? || kind.DropDefault?))
    || (r == 31 && kind.ValidateConstraint?)
    || (r == 34 && kind.SetVariable?)
    || (r == 52 && kind.DisableRLS?)
    || (r == 54 && kind.SetRelOptions?)
    || (r == 55 && kind.SetLogged?)
  }

  /** The statements of the table's first column: locks and maintenance. */
  predicate NamesMaintaining(r: nat, kind: Kind) {
    || (r == 35 && kind.LockTable?)
    || (r == 36 && kind.Analyze?)
    || (r == 37 && kind.Vacuum?)
    || (r == 38 && kind.VacuumFull?)
    || (r == 47 && (kind.RefreshMatView? || kind.RefreshMatViewConcurrently?))
  }

  /** The statements of the table's first column: what creates or replaces. */
  predicate NamesCreating(r: nat, kind: Kind) {
    || (r == 25 && (kind.CreateTable? || kind.CreateView? || kind.CreateType?))
    || (r == 28 && kind.ReplaceView?)
    || (r == 39 && kind.CreateExtension?)
    || (r == 40 && kind.CreateSchema?)
    || (r == 41 && kind.CreateSequence?)
    || (r == 42 && kind.CreateFunction?)
    || (r == 43 && kind.ReplaceFunction?)
    || (r == 44 && kind.CreateTrigger?)
    || (r == 45 && kind.CreateMatView?)
    || (r == 46 && kind.CreateMatViewNoData?)
  }

  /** The statements of the table's first column: what adds to something there. */
  predicate NamesAdding(r: nat, kind: Kind) {
    || (r == 30 && kind.AddConstraintUsingIndex?)
    || (r == 32 && (kind.Grant? || kind.Revoke?))
    || (r == 33 && kind.Comment?)
    || (r == 48 && kind.AddEnumValue?)
    || (r == 49 && kind.CreatePolicy?)
    || (r == 51 && kind.EnableRLS?)
    || (r == 56 && kind.AttachPartition?)
    || (r == 58 && kind.Insert?)
    || (r == 59 && kind.Upsert?)
  }

  predicate NamesKind(r: nat, kind: Kind) {
    || NamesDestroying(r, kind)
    || NamesRenaming(r, kind)
    || NamesSetting(r, kind)
    || NamesMaintaining(r, kind)
    || NamesCreating(r, kind)
    || NamesAdding(r, kind)
  }

  // ---------------------------------------------------------------- the classifier

  /** Which part of the classifier decides a kind; those OfTheirOwn depend on more than the kind. */
  datatype Group = Destroying | Renaming | Setting | Maintaining | Creating | Adding | OfTheirOwn | Unrecognized

  function GroupOf(kind: Kind): Group {
    match kind
    case DropTable | DropColumn | Truncate | DropSchema | DropDatabase | AlterSequenceRestart
         | DropType | DropSequence | DropExtension => Destroying
    case RenameTable | RenameColumn | DropConstraint | DropView | DropFunction | DropTrigger
         | DropMatView | DropPolicy | RenameIndex => Renaming
    case SetNotNull | DropNotNull | SetDefault | DropDefault | ValidateConstraint | SetVariable
         | DisableRLS | SetRelOptions | SetLogged => Setting
    case LockTable | Analyze | Vacuum | VacuumFull | RefreshMatView | RefreshMatViewConcurrently => Maintaining
    case CreateTable | CreateView | CreateType | ReplaceView | CreateExtension | CreateSchema
         | CreateSequence | CreateFunction | ReplaceFunction | CreateTrigger | CreateMatView
         | CreateMatViewNoData => Creating
    case AlterColumnType | Delete | Update | DropIndex | AddColumn | AddConstraint | CreateIndex
         | DetachPartition => OfTheirOwn
    case UnrecognizedKind => Unrecognized
    case _ => Adding
  }

  /** The kinds whose row depends on more than the kind. */
  predicate Refined(kind: Kind) { GroupOf(kind).OfTheirOwn? }

  function UnknownStatement(): Classification { Classification(27, Unknown, LockExclusive, false) }

  function ClassifyAlterColumnType(s: Statement, tables: Tables): (c: Classification)
    ensures Charted(c)
  {
    if s.columnType.None? then UnknownStatement()
    else
      match Lookup(tables, s.relation, s.target)
      case None => UnknownStatement()
      case Some(from) =>
        match CompareTypes(from, s.columnType.value)
        case Narrowing => Classification(6, Irreversible, LockTableRewrite, false)
        case Widening => Classification(7, Reversibility.Costly, LockTableRewrite, true)
        case WidthSame | WidthUnknown => UnknownStatement()
  }

  function ClassifyDML(s: Statement): (c: Classification)
    ensures Charted(c)
  {
    if !s.hasWhere then Classification(8, Irreversible, LockExclusive, false)
    else Classification(9, Irreversible, LockShort, false)
  }

  function ClassifyDropIndex(s: Statement): (c: Classification)
    ensures Charted(c)
  {
    if s.concurrent then Classification(15, Costly, LockNone, true)
    else Classification(14, Costly, LockExclusive, true)
  }

  function ClassifyAddColumn(s: Statement): (c: Classification)
    ensures Charted(c)
  {
    if s.notNull && !s.hasDefault then Classification(18, Costly, LockExclusive, true)
    else if s.hasDefault && s.volatileDefault then Classification(19, Reversible, LockTableRewrite, true)
    else Classification(20, Reversible, LockNone, true)
  }

  function ClassifyAddConstraint(s: Statement): (c: Classification)
    ensures Charted(c)
  {
    if s.notValid then Classification(22, Reversible, LockShort, true)
    else if s.constraintKind.ForeignKey? || s.constraintKind.CheckConstraint? then
      Classification(21, Reversible, LockFullScan, true)
    else UnknownStatement()
  }

  function ClassifyCreateIndex(s: Statement): (c: Classification)
    ensures Charted(c)
  {
    if s.concurrent then Classification(24, Reversible, LockNone, true)
    else Classification(23, Reversible, LockExclusive, true)
  }

  /** Rows decided by the kind alone: what destroys data or what holds it. */
  function RowForDestroying(kind: Kind): (c: Classification)
    requires GroupOf(kind).Destroying?
    ensures Charted(c) && NamesDestroying(c.rule, kind)
  {
    match kind
    case DropTable => Classification(1, Irreversible, LockExclusive, false)
    case DropColumn => Classification(2, Irreversible, LockExclusive, false)
    case Truncate => Classification(3, Irreversible, LockExclusive, false)
    case DropSchema | DropDatabase => Classification(4, Irreversible, LockExclusive, false)
    case AlterSequenceRestart => Classification(10, Irreversible, LockShort, false)
    case DropType | DropSequence | DropExtension => Classification(11, Irreversible, LockExclusive, false)
  }

  /** Rows decided by the kind alone: renames, and drops of what a definition brings back. */
  function RowForRenaming(kind: Kind): (c: Classification)
    requires GroupOf(kind).Renaming?
    ensures Charted(c) && NamesRenaming(c.rule, kind)
  {
    match kind
    case RenameTable | RenameColumn => Classification(12, Costly, LockShort, true)
    case DropConstraint => Classification(13, Costly, LockShort, true)
    case DropView | DropFunction | DropTrigger => Classification(16, Costly, LockShort, true)
    case DropMatView => Classification(29, Costly, LockExclusive, true)
    case DropPolicy => Classification(50, Costly, LockShort, false)
    case RenameIndex => Classification(53, Costly, LockShort, true)
  }

  /** Rows decided by the kind alone: settings of columns, tables and sessions. */
  function RowForSetting(kind: Kind): (c: Classification)
    requires GroupOf(kind).Setting?
    ensures Charted(c) && NamesSetting(c.rule, kind)
  {
    match kind
    case SetNotNull => Classification(17, Costly, LockFullScan, true)
    case DropNotNull | SetDefault | DropDefault => Classification(26, Reversible, LockShort, true)
    case ValidateConstraint => Classification(31, Reversible, LockFullScan, true)
    case SetVariable => Classification(34, Reversible, LockNone, true)
    case DisableRLS => Classification(52, Irreversible, LockShort, false)
    case SetRelOptions => Classification(54, Costly, LockShort, false)
    case SetLogged => Classification(55, Costly, LockTableRewrite, false)
  }

  /** Rows decided by the kind alone: locks and maintenance. */
  function RowForMaintaining(kind: Kind): (c: Classification)
    requires GroupOf(kind).Maintaining?
    ensures Charted(c) && NamesMaintaining(c.rule, kind)
  {
    match kind
    case LockTable => Classification(35, Reversible, LockExclusive, true)
    case Analyze => Classification(36, Reversible, LockNone, true)
    case Vacuum => Classification(37, Reversible, LockNone, true)
    case VacuumFull => Classification(38, Reversible, LockExclusive, true)
    case RefreshMatView => Classification(47, Reversible, LockExclusive, true)
    case RefreshMatViewConcurrently => Classification(47, Reversible, LockFullScan, true)
  }

  /** Rows decided by the kind alone: what creates or replaces. */
  function RowForCreating(kind: Kind): (c: Classification)
    requires GroupOf(kind).Creating?
    ensures Charted(c) && NamesCreating(c.rule, kind)
  {
    match kind
    case CreateTable | CreateView | CreateType => Classification(25, Reversible, LockNone, true)
    case ReplaceView => Classification(28, Costly, LockShort, true)
    case CreateExtension => Classification(39, Reversible, LockShort, true)
    case CreateSchema => Classification(40, Reversible, LockNone, true)
    case CreateSequence => Classification(41, Reversible, LockNone, true)
    case CreateFunction => Classification(42, Reversible, LockNone, true)
    case ReplaceFunction => Classification(43, Costly, LockShort, true)
    case CreateTrigger => Classification(44, Reversible, LockShort, true)
    case CreateMatView => Classification(45, Reversible, LockFullScan, true)
    case CreateMatViewNoData => Classification(46, Reversible, LockNone, true)
  }

  /** Rows decided by the kind alone: what adds to something there. */
  function RowForAdding(kind: Kind): (c: Classification)
    requires GroupOf(kind).Adding?
    ensures Charted(c) && NamesAdding(c.rule, kind)
  {
    match kind
    case AddConstraintUsingIndex => Classification(30, Reversible, LockShort, true)
    case Grant | Revoke => Classification(32, Reversible, LockShort, true)
    case Comment => Classification(33, Reversible, LockShort, true)
    case AddEnumValue => Classification(48, Irreversible, LockShort, false)
    case CreatePolicy => Classification(49, Reversible, LockShort, true)
    case EnableRLS => Classification(51, Reversible, LockShort, true)
    case AttachPartition => Classification(56, Reversible, LockFullScan, true)
    case Insert => Classification(58, Costly, LockShort, false)
    case Upsert => Classification(59, Irreversible, LockShort, false)
  }

  /** The rows that the kind of statement alone decides. */
  function RowForKind(kind: Kind): (c: Classification)
    ensures Charted(c)
    ensures if Refined(kind) || kind.UnrecognizedKind? then c == UnknownStatement() else NamesKind(c.rule, kind)
  {
    match GroupOf(kind)
    case Destroying => RowForDestroying(kind)
    case Renaming => RowForRenaming(kind)
    case Setting => RowForSetting(kind)
    case Maintaining => RowForMaintaining(kind)
    case Creating => RowForCreating(kind)
    case Adding => RowForAdding(kind)
    case OfTheirOwn | Unrecognized => UnknownStatement()
  }

  /** One finding per statement; CASCADE overrides whatever it overlays. */
  function Classify(s: Statement, tables: Tables): Classification {
    if s.cascade then Classification(5, Irreversible, LockExclusive, false)
    else match s.kind
      case AlterColumnType => ClassifyAlterColumnType(s, tables)
      case Delete | Update => ClassifyDML(s)
      case DropIndex => ClassifyDropIndex(s)
      case AddColumn => ClassifyAddColumn(s)
      case AddConstraint => ClassifyAddConstraint(s)
      case CreateIndex => ClassifyCreateIndex(s)
      case DetachPartition => Classification(57, Costly, if s.concurrent then LockNone else LockShort, false)
      case kind => RowForKind(kind)
  }

  /**
   Two transcriptions agree, the classifier's and the published table's: every statement lands on
   a row with that row's verdict and lock, and records an undo step exactly where the row promises one.
   */
  lemma ClassifyIsCharted(s: Statement, tables: Tables)
    ensures Charted(Classify(s, tables))
  {
    if s.cascade {
      assert Charted(Classification(5, Irreversible, LockExclusive, false));
    } else if s.kind.DetachPartition? {
      assert Charted(Classification(57, Costly, if s.concurrent then LockNone else LockShort, false));
    }
  }

  /** What altering this column's type does to its width, when the type it had is known. */
  function WidthOf(s: Statement, tables: Tables): WidthChange {
    var from := Lookup(tables, s.relation, s.target);
    if s.columnType.None? || from.None? then WidthUnknown else CompareTypes(from.value, s.columnType.value)
  }

  predicate AddsCheckedConstraint(s: Statement) { s.constraintKind.ForeignKey? || s.constraintKind.CheckConstraint? }

  /** The first column of the table, row by row. */
  predicate NamesStatement(r: nat, s: Statement, tables: Tables) {
    if s.cascade then r == 5
    else match s.kind
      case AlterColumnType =>
        if r == 6 then WidthOf(s, tables).Narrowing?
        else if r == 7 then WidthOf(s, tables).Widening?
        else r == 27 && (WidthOf(s, tables).WidthSame? || WidthOf(s, tables).WidthUnknown?)
      case Delete | Update => if s.hasWhere then r == 9 else r == 8
      case DropIndex => if s.concurrent then r == 15 else r == 14
      case AddColumn =>
        if r == 18 then s.notNull && !s.hasDefault
        else if r == 19 then s.hasDefault && s.volatileDefault
        else r == 20 && (!s.notNull || s.hasDefault) && !(s.hasDefault && s.volatileDefault)
      case AddConstraint =>
        if r == 21 then AddsCheckedConstraint(s) && !s.notValid
        else if r == 22 then s.notValid
        else r == 27 && !AddsCheckedConstraint(s) && !s.notValid
      case CreateIndex => if s.concurrent then r == 24 else r == 23
      case DetachPartition => r == 57
      case UnrecognizedKind => r == 27
      case kind => NamesKind(r, kind)
  }

  lemma PlainLandsOnItsRow(s: Statement, tables: Tables)
    requires !s.cascade && !Refined(s.kind)
    ensures NamesStatement(Classify(s, tables).rule, s, tables)
  {
    PlainIsRowForKind(s, tables);
  }

  /** Of the same two transcriptions: the row is the one whose first column names the statement. */
  lemma ClassifyLandsOnItsRow(s: Statement, tables: Tables)
    ensures NamesStatement(Classify(s, tables).rule, s, tables)
  {
    if !s.cascade && !Refined(s.kind) {
      PlainLandsOnItsRow(s, tables);
    }
  }

  lemma PlainIsRowForKind(s: Statement, tables: Tables)
    requires !s.cascade && !Refined(s.kind)
    ensures Classify(s, tables) == RowForKind(s.kind)
  {
  }

  lemma ConcurrencyIrrelevant(s: Statement, b: bool, tables: Tables)
    requires s.cascade || (!s.kind.DropIndex? && !s.kind.CreateIndex? && !s.kind.DetachPartition?)
    ensures Classify(s.(concurrent := b), tables) == Classify(s, tables)
  {
    var t := s.(concurrent := b);
    if s.cascade {
    } else if Refined(s.kind) {
      match s.kind {
        case AlterColumnType => assert ClassifyAlterColumnType(s, tables) == ClassifyAlterColumnType(t, tables);
        case Delete | Update => assert ClassifyDML(s) == ClassifyDML(t);
        case AddColumn => assert ClassifyAddColumn(s) == ClassifyAddColumn(t);
        case AddConstraint => assert ClassifyAddConstraint(s) == ClassifyAddConstraint(t);
      }
    } else {
      PlainIsRowForKind(s, tables);
      PlainIsRowForKind(t, tables);
    }
  }

  /** The same verdict, for no stronger a lock. */
  predicate Eases(concurrent: Classification, plain: Classification) {
    concurrent.reversibility == plain.reversibility && concurrent.lock.Severity() <= plain.lock.Severity()
  }

  /** The statement with CONCURRENTLY, and without; refreshing a materialized view is told apart by its kind. */
  function WithConcurrently(s: Statement): Statement {
    s.(concurrent := true, kind := if s.kind.RefreshMatView? then RefreshMatViewConcurrently else s.kind)
  }

  function WithoutConcurrently(s: Statement): Statement {
    s.(concurrent := false, kind := if s.kind.RefreshMatViewConcurrently? then RefreshMatView else s.kind)
  }

  lemma ConcurrencyEases(s: Statement, tables: Tables)
    requires !s.cascade && (s.kind.DropIndex? || s.kind.CreateIndex? || s.kind.DetachPartition?)
    ensures Eases(Classify(s.(concurrent := true), tables), Classify(s.(concurrent := false), tables))
  {
    var plain, concurrent := s.(concurrent := false), s.(concurrent := true);
    match s.kind {
      case DropIndex => assert Eases(ClassifyDropIndex(concurrent), ClassifyDropIndex(plain));
      case CreateIndex => assert Eases(ClassifyCreateIndex(concurrent), ClassifyCreateIndex(plain));
      case DetachPartition =>
    }
  }

  lemma MaintainingRow(kind: Kind)
    requires GroupOf(kind).Maintaining?
    ensures RowForKind(kind) == RowForMaintaining(kind)
  {
  }

  lemma MaintainingIsClassified(s: Statement, tables: Tables)
    requires !s.cascade && GroupOf(s.kind).Maintaining?
    ensures Classify(s, tables) == RowForMaintaining(s.kind)
  {
    PlainIsRowForKind(s, tables);
    MaintainingRow(s.kind);
  }

  lemma RefreshEases(s: Statement, t: Statement, tables: Tables)
    requires !s.cascade && !t.cascade && s.kind.RefreshMatViewConcurrently? && t.kind.RefreshMatView?
    ensures Eases(Classify(s, tables), Classify(t, tables))
  {
    MaintainingIsClassified(s, tables);
    MaintainingIsClassified(t, tables);
  }

  lemma CascadeAlike(s: Statement, t: Statement, tables: Tables)
    requires s.cascade && t.cascade
    ensures Eases(Classify(s, tables), Classify(t, tables))
  {
  }

  lemma UnaffectedEases(s: Statement, tables: Tables)
    requires s.cascade || (!s.kind.DropIndex? && !s.kind.CreateIndex? && !s.kind.DetachPartition?)
    ensures Eases(Classify(s.(concurrent := true), tables), Classify(s.(concurrent := false), tables))
  {
    ConcurrencyIrrelevant(s, true, tables);
    ConcurrencyIrrelevant(s, false, tables);
  }

  /** CONCURRENTLY changes the lock, only for the milder, and never the verdict. */
  lemma ConcurrentlyOnlyEasesLock(s: Statement, tables: Tables)
    ensures Eases(Classify(WithConcurrently(s), tables), Classify(WithoutConcurrently(s), tables))
  {
    if s.kind.RefreshMatView? || s.kind.RefreshMatViewConcurrently? {
      if s.cascade {
        CascadeAlike(WithConcurrently(s), WithoutConcurrently(s), tables);
      } else {
        RefreshEases(WithConcurrently(s), WithoutConcurrently(s), tables);
      }
    } else if !s.cascade && (s.kind.DropIndex? || s.kind.CreateIndex? || s.kind.DetachPartition?) {
      ConcurrencyEases(s, tables);
    } else {
      UnaffectedEases(s, tables);
    }
  }

  /** A classification looks at the run so far only through the type the altered column had. */
  lemma ClassifyDependsOnPriorType(s: Statement, a: Tables, b: Tables)
    requires Lookup(a, s.relation, s.target) == Lookup(b, s.relation, s.target)
    ensures Classify(s, a) == Classify(s, b)
  {
  }

  /**
   What the type-change verdicts mean, from the run of statements before: PG006 has a value that
   does not survive, and PG007 keeps every value unless numeric digits before the point shrink.
   */
  lemma TypeChangeVerdict(before: seq<Statement>, s: Statement, from: SqlType)
    requires s.kind.AlterColumnType? && !s.cascade && s.columnType.Some?
    requires Declared(before, s.relation, s.target, from)
    requires ValidMods(from) && ValidMods(s.columnType.value)
    ensures var to, c := s.columnType.value, Classify(s, Replay(map[], before));
      && (c.rule == 6 ==> exists v :: Holds(from, v) && !Holds(to, v))
      && (c.rule == 7 ==> (Included(from, to) <==> (IsNumeric(from) ==> KeepsIntegralDigits(from, to))))
      && (c.reversibility.Unknown? <==> CompareTypes(from, to) == WidthSame || CompareTypes(from, to) == WidthUnknown)
  {
    TrackerIsBackwardSearch(before, s.relation, s.target, from);
    match CompareTypes(from, s.columnType.value) {
      case Narrowing => NarrowingLosesValue(from, s.columnType.value);
      case Widening => WideningKeepsExactly(from, s.columnType.value);
      case _ =>
    }
  }

  /** With no declaration before it in the changeset, a type change is never guessed at. */
  lemma UndeclaredTypeIsUnknown(before: seq<Statement>, s: Statement)
    requires s.kind.AlterColumnType? && !s.cascade
    requires forall t :: !Declared(before, s.relation, s.target, t)
    ensures Classify(s, Replay(map[], before)) == UnknownStatement()
  {
    match Lookup(Replay(map[], before), s.relation, s.target) {
      case None =>
      case Some(t) => TrackerIsBackwardSearch(before, s.relation, s.target, t);
    }
  }
}
