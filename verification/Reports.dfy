/** What the analyzer reports about each statement of a changeset, from the statements themselves. */
module Reports {
  import opened Text
  import opened Domain
  import opened SqlTypes
  import opened Schema
  import opened Rules
  import opened Normalize
  import opened PostgresAnalyzer
  import Sorting

  /** Every statement of the up migrations that parse, in the order of the files. */
  function StatementsOf(fe: Frontend, files: seq<SourceFile>): seq<Statement> {
    if files == [] then []
    else
      var n := |files| - 1;
      var parsed := if IsUp(files[n]) then fe.parse(files[n].current) else None;
      StatementsOf(fe, files[..n]) + (if parsed.Some? then parsed.value else [])
  }

  lemma {:induction false} TrackerHoldsStatements(fe: Frontend, files: seq<SourceFile>)
    ensures TablesAfter(ReaderFor(fe), files) == Replay(map[], StatementsOf(fe, files))
  {
    if files != [] {
      var n := |files| - 1;
      TrackerHoldsStatements(fe, files[..n]);
      if IsUp(files[n]) && fe.parse(files[n].current).Some? {
        ReplayConcat(map[], StatementsOf(fe, files[..n]), fe.parse(files[n].current).value);
      } else {
        assert StatementsOf(fe, files) == StatementsOf(fe, files[..n]);
      }
    }
  }

  lemma {:induction false} JudgedInTurn(judge: Judge, tables: Tables, statements: seq<Statement>, i: nat)
    requires i < |statements|
    ensures |StatementFindings(judge, tables, statements)| == |statements|
    ensures StatementFindings(judge, tables, statements)[i] == judge(statements[i], Replay(tables, statements[..i]))
  {
    var n := |statements| - 1;
    if n > 0 {
      JudgedInTurn(judge, tables, statements[..n], if i < n then i else 0);
    }
    if i < n {
      assert statements[..n][..i] == statements[..i];
    }
  }

  lemma {:induction false} FindingsOfFileStand(
    r: Reader, before: seq<SourceFile>, f: SourceFile, after: seq<SourceFile>, g: Finding)
    requires r.isUp(f) && g in r.findings(TablesAfter(r, before), f)
    ensures g in FindingsInOrder(r, before + [f] + after)
  {
    var all := before + [f] + after;
    var n := |all| - 1;
    if after == [] {
      assert all[..n] == before && all[n] == f;
    } else {
      assert all[..n] == before + [f] + after[..|after| - 1];
      FindingsOfFileStand(r, before, f, after[..|after| - 1], g);
    }
  }

  /**
   Each statement of an up migration is reported, where it stands, with the verdict and the lock it
   has in the state left by the statements before it and by no other, earlier files included.
   */
  lemma ReportedFinding(
    fe: Frontend, files: seq<SourceFile>, before: seq<SourceFile>, f: SourceFile, after: seq<SourceFile>,
    statements: seq<Statement>, i: nat) returns (g: Finding)
    requires Sorting.Sort(PathLe, files) == before + [f] + after
    requires IsUp(f) && fe.parse(f.current) == Some(statements) && i < |statements|
    ensures g in Analysis(ReaderFor(fe), files)
    ensures g.file == f.path && g.line == statements[i].line
    ensures g.subject == Subject(statements[i].relation, statements[i].target) && g.context.None?
    ensures g.statement == Normalized(fe.space, statements[i].sql)
    ensures var c := Classify(statements[i], Replay(map[], StatementsOf(fe, before) + statements[..i]));
      g.ruleID == RuleName(c.rule) && g.reversibility == c.reversibility && g.lock == c.lock
      && g.undo == (if c.undoable
                    then Reverse(g.ruleID, statements[i].relation, statements[i].target, statements[i].newName)
                    else NoUndo)
  {
    var r, tables := ReaderFor(fe), TablesAfter(ReaderFor(fe), before);
    g := FindingFor(fe, f.path, statements[i], Replay(tables, statements[..i]));
    TrackerHoldsStatements(fe, before);
    ReplayConcat(map[], StatementsOf(fe, before), statements[..i]);
    JudgedInTurn(JudgeFor(fe, f.path), tables, statements, i);
    assert r.findings(tables, f)[i] == g;
    FindingsOfFileStand(r, before, f, after, g);
    assert g in multiset(Analysis(r, files));
  }

  /** How many up migrations do not parse. */
  function UnreadCount(fe: Frontend, files: seq<SourceFile>): nat {
    if files == [] then 0
    else
      var n := |files| - 1;
      UnreadCount(fe, files[..n]) + (if IsUp(files[n]) && fe.parse(files[n].current).None? then 1 else 0)
  }

  lemma {:induction false} FindingsPerFile(fe: Frontend, files: seq<SourceFile>)
    ensures |FindingsInOrder(ReaderFor(fe), files)| == |StatementsOf(fe, files)| + UnreadCount(fe, files)
  {
    if files != [] {
      var n := |files| - 1;
      FindingsPerFile(fe, files[..n]);
      if IsUp(files[n]) && fe.parse(files[n].current).Some? {
        var statements := fe.parse(files[n].current).value;
        if statements != [] {
          JudgedInTurn(JudgeFor(fe, files[n].path), TablesAfter(ReaderFor(fe), files[..n]), statements, 0);
        }
      }
    }
  }

  /** And nothing else is reported: one finding a statement, and one for each file that does not parse. */
  lemma OneFindingEach(fe: Frontend, files: seq<SourceFile>)
    ensures var ordered := Sorting.Sort(PathLe, files);
      |Analysis(ReaderFor(fe), files)| == |StatementsOf(fe, ordered)| + UnreadCount(fe, ordered)
  {
    var found := FindingsInOrder(ReaderFor(fe), Sorting.Sort(PathLe, files));
    FindingsPerFile(fe, Sorting.Sort(PathLe, files));
    assert |multiset(Analysis(ReaderFor(fe), files))| == |multiset(found)|;
  }

  /** PG006 loses a value, PG007 keeps them all unless numeric digits go, PG027 is for everything else. */
  ghost predicate ReportsChange(g: Finding, from: SqlType, to: SqlType)
    requires ValidMods(from) && ValidMods(to)
  {
    && (g.ruleID == "PG006" || g.ruleID == "PG007" || g.ruleID == "PG027")
    && (g.ruleID == "PG006" ==>
          g.reversibility.Irreversible? && g.lock.LockTableRewrite? && exists v :: Holds(from, v) && !Holds(to, v))
    && (g.ruleID == "PG007" ==>
          g.reversibility.Costly? && g.lock.LockTableRewrite?
          && (Included(from, to) <==> (IsNumeric(from) ==> KeepsIntegralDigits(from, to))))
    && (g.ruleID == "PG027" ==> g.reversibility.Unknown? && g.lock.LockExclusive?)
    && (Comparable(from, to) && Included(from, to) && !Included(to, from) ==> g.ruleID == "PG007")
    && (Comparable(from, to) && Included(to, from) && !Included(from, to) ==> g.ruleID == "PG006")
    && (Comparable(from, to) && Included(to, from) && Included(from, to) ==> g.ruleID == "PG027")
    && (!Comparable(from, to) ==> g.ruleID == "PG027")
  }

  lemma TypeRuleNames()
    ensures RuleName(6) == "PG006" && RuleName(7) == "PG007" && RuleName(27) == "PG027"
  {
  }

  lemma ChangeIsClassified(before: seq<Statement>, s: Statement, from: SqlType)
    requires s.kind.AlterColumnType? && !s.cascade && s.columnType.Some?
    requires Declared(before, s.relation, s.target, from)
    ensures Classify(s, Replay(map[], before)) ==
            match CompareTypes(from, s.columnType.value)
            case Narrowing => Classification(6, Irreversible, LockTableRewrite, false)
            case Widening => Classification(7, Reversibility.Costly, LockTableRewrite, true)
            case _ => UnknownStatement()
  {
    TrackerIsBackwardSearch(before, s.relation, s.target, from);
  }

  lemma ChangeMeans(from: SqlType, to: SqlType, g: Finding)
    requires ValidMods(from) && ValidMods(to)
    requires match CompareTypes(from, to)
             case Narrowing => g.ruleID == "PG006" && g.reversibility.Irreversible? && g.lock.LockTableRewrite?
             case Widening => g.ruleID == "PG007" && g.reversibility.Costly? && g.lock.LockTableRewrite?
             case _ => g.ruleID == "PG027" && g.reversibility.Unknown? && g.lock.LockExclusive?
    ensures ReportsChange(g, from, to)
  {
    UnknownExactly(from, to);
    if Comparable(from, to) {
      InclusionIsJudged(from, to);
    } else if CompareTypes(from, to) != WidthUnknown {
      ItselfIsSame(from, to);
    }
    match CompareTypes(from, to) {
      case Narrowing => NarrowingLosesValue(from, to);
      case Widening => WideningKeepsExactly(from, to);
      case _ =>
    }
  }

  /**
   A change of type is judged, wherever in the changeset it stands, by the values of the type last
   declared before it against those of the new one.
   */
  lemma ReportedTypeChange(
    fe: Frontend, files: seq<SourceFile>, before: seq<SourceFile>, f: SourceFile, after: seq<SourceFile>,
    statements: seq<Statement>, i: nat, from: SqlType) returns (g: Finding)
    requires Sorting.Sort(PathLe, files) == before + [f] + after
    requires IsUp(f) && fe.parse(f.current) == Some(statements) && i < |statements|
    requires statements[i].kind.AlterColumnType? && !statements[i].cascade && statements[i].columnType.Some?
    requires Declared(StatementsOf(fe, before) + statements[..i], statements[i].relation, statements[i].target, from)
    requires ValidMods(from) && ValidMods(statements[i].columnType.value)
    ensures g in Analysis(ReaderFor(fe), files)
    ensures g.file == f.path && g.line == statements[i].line
    ensures g.subject == Subject(statements[i].relation, statements[i].target)
    ensures ReportsChange(g, from, statements[i].columnType.value)
  {
    g := ReportedFinding(fe, files, before, f, after, statements, i);
    ChangeIsClassified(StatementsOf(fe, before) + statements[..i], statements[i], from);
    TypeRuleNames();
    ChangeMeans(from, statements[i].columnType.value, g);
  }

  predicate Blank(space: SpaceTest, line: string) { forall c | c in line :: space(c) }

  lemma {:induction false} TrimmedIsEmpty(space: SpaceTest, s: string)
    ensures TrimBy(space, s) == "" <==> Blank(space, s)
    decreases |s|
  {
    if s != "" && space(s[0]) {
      TrimmedIsEmpty(space, s[1..]);
      assert s == [s[0]] + s[1..];
    } else if s != "" && space(s[|s| - 1]) {
      TrimmedIsEmpty(space, s[..|s| - 1]);
      assert s == s[..|s| - 1] + [s[|s| - 1]];
      assert s[0] in s;
    } else if s != "" {
      assert s[0] in s;
    }
  }

  /** The number of the first line with anything on it, counting from 1; 1 when there is none. */
  predicate IsFirstLine(space: SpaceTest, lines: seq<string>, n: int) {
    || (n == 1 && forall line | line in lines :: Blank(space, line))
    || (1 <= n <= |lines| && !Blank(space, lines[n - 1]) && forall j | 0 <= j < n - 1 :: Blank(space, lines[j]))
  }

  lemma {:induction false} FirstLine(space: SpaceTest, lines: seq<string>, number: nat)
    ensures var n := FirstNonEmpty(space, lines, number).0;
      || (n == 1 && forall line | line in lines :: Blank(space, line))
      || (number <= n < number + |lines| && !Blank(space, lines[n - number])
          && forall j | 0 <= j < n - number :: Blank(space, lines[j]))
    ensures number == 1 ==> IsFirstLine(space, lines, FirstNonEmpty(space, lines, number).0)
    decreases |lines|
  {
    if lines != [] {
      TrimmedIsEmpty(space, lines[0]);
      if Blank(space, lines[0]) {
        FirstLine(space, lines[1..], number + 1);
        assert lines == [lines[0]] + lines[1..];
      }
    }
  }

  /**
   A file that does not parse is reported once as a whole: UNKNOWN under an exclusive lock, at its first
   line with anything on it, or line 1 when there is none.
   */
  lemma ReportedUnread(
    fe: Frontend, files: seq<SourceFile>, before: seq<SourceFile>, f: SourceFile, after: seq<SourceFile>)
    returns (g: Finding)
    requires Sorting.Sort(PathLe, files) == before + [f] + after
    requires IsUp(f) && fe.parse(f.current).None?
    ensures g in Analysis(ReaderFor(fe), files)
    ensures g.file == f.path && g.ruleID == "PG027" && g.reversibility.Unknown? && g.lock.LockExclusive?
    ensures g.undo.NoUndo? && g.subject == Subject("", "") && g.context.None?
    ensures IsFirstLine(fe.space, Split(f.current, '\n'), g.line)
  {
    g := ParseFailure(fe, f);
    UnreadIsFound(fe, files, before, f, after);
    FirstLine(fe.space, Split(f.current, '\n'), 1);
  }

  lemma UnreadIsFound(
    fe: Frontend, files: seq<SourceFile>, before: seq<SourceFile>, f: SourceFile, after: seq<SourceFile>)
    requires Sorting.Sort(PathLe, files) == before + [f] + after
    requires IsUp(f) && fe.parse(f.current).None?
    ensures ParseFailure(fe, f) in Analysis(ReaderFor(fe), files)
  {
    var r, g := ReaderFor(fe), ParseFailure(fe, f);
    assert r.findings(TablesAfter(r, before), f) == [g];
    FindingsOfFileStand(r, before, f, after, g);
    assert g in multiset(Analysis(r, files));
  }

  /** Where nothing before it declares the column, a change of type is UNKNOWN. */
  lemma ReportedUndeclared(
    fe: Frontend, files: seq<SourceFile>, before: seq<SourceFile>, f: SourceFile, after: seq<SourceFile>,
    statements: seq<Statement>, i: nat) returns (g: Finding)
    requires Sorting.Sort(PathLe, files) == before + [f] + after
    requires IsUp(f) && fe.parse(f.current) == Some(statements) && i < |statements|
    requires statements[i].kind.AlterColumnType? && !statements[i].cascade
    requires forall t ::
      !Declared(StatementsOf(fe, before) + statements[..i], statements[i].relation, statements[i].target, t)
    ensures g in Analysis(ReaderFor(fe), files)
    ensures g.file == f.path && g.line == statements[i].line
    ensures g.ruleID == "PG027" && g.reversibility.Unknown? && g.lock.LockExclusive?
  {
    g := ReportedFinding(fe, files, before, f, after, statements, i);
    UndeclaredTypeIsUnknown(StatementsOf(fe, before) + statements[..i], statements[i]);
    TypeRuleNames();
  }

  // ---------------------------------------------------------------- which files are up migrations

  /** Cut behind the last slash, if there is one. */
  predicate CutAt(head: string, base: string) {
    '/' !in base && (head == "" || head[|head| - 1] == '/')
  }

  lemma {:induction false} CutPath(path: string) returns (head: string, base: string)
    ensures path == head + base && CutAt(head, base)
  {
    if path == "" {
      head, base := "", "";
    } else {
      var n := |path| - 1;
      if path[n] == '/' {
        head, base := path, "";
      } else {
        head, base := CutPath(path[..n]);
        base := base + [path[n]];
      }
    }
  }

  lemma BaseIsCut(head: string, base: string)
    requires CutAt(head, base)
    ensures BaseName(head + base) == base
  {
    SplitPlain(base, '/');
    if head == "" {
      assert head + base == base;
    } else {
      var front := head[..|head| - 1];
      SplitAcross(front, base, '/');
      assert front + ['/'] + base == head + base;
    }
  }

  lemma LowerCut(head: string, base: string)
    requires CutAt(head, base)
    ensures CutAt(ToLower(head), ToLower(base)) && ToLower(head + base) == ToLower(head) + ToLower(base)
  {
  }

  lemma SuffixOfBase(head: string, base: string, name: string)
    requires CutAt(head, base) && '/' !in name
    ensures HasSuffix(head + base, name) <==> HasSuffix(base, name)
  {
    var whole := head + base;
    if |name| <= |base| {
      assert whole[|whole| - |name|..] == base[|base| - |name|..];
    } else if |name| <= |whole| {
      var tail := whole[|whole| - |name|..];
      assert tail[|name| - |base| - 1] == '/' && '/' in tail;
    }
  }

  lemma BaseIsName(head: string, base: string, name: string)
    requires CutAt(head, base) && '/' !in name
    ensures base == name <==> head + base == name || HasSuffix(head + base, "/" + name)
  {
    var whole := head + base;
    SuffixOfBase(head, base, name);
    if head != "" {
      assert whole[|head| - 1] == '/' && '/' in whole;
    }
    if base == name {
      NameIsSuffix(head, base);
    }
    if HasSuffix(whole, "/" + name) {
      SlashBefore(whole, name);
      NoSlashInside(head, base, |whole| - |name| - 1);
    }
  }

  lemma NameIsSuffix(head: string, base: string)
    requires CutAt(head, base)
    ensures head == "" || HasSuffix(head + base, "/" + base)
  {
    if head != "" {
      assert (head + base)[|head| - 1..] == "/" + base;
    }
  }

  lemma SlashBefore(whole: string, name: string)
    requires HasSuffix(whole, "/" + name)
    ensures whole[|whole| - |name| - 1] == '/' && HasSuffix(whole, name)
  {
    var tail := whole[|whole| - |name| - 1..];
    assert tail[0] == '/' && tail[1..] == name == whole[|whole| - |name|..];
  }

  lemma NoSlashInside(head: string, base: string, k: nat)
    requires CutAt(head, base) && k < |head + base|
    ensures (head + base)[k] == '/' ==> k < |head|
  {
    if k >= |head| {
      assert (head + base)[k] == base[k - |head|] && base[k - |head|] in base;
    }
  }

  /**
   The files read for statements: claimed, still there, named `*.sql` in whatever case, and not
   named as down migrations are, `*.down.sql` or `down.sql` itself.
   */
  lemma UpMigrationsByName(f: SourceFile)
    ensures var path := ToLower(f.path);
      IsUp(f) <==>
        f.supported && !f.removed && HasSuffix(path, ".sql")
        && !HasSuffix(path, ".down.sql") && path != "down.sql" && !HasSuffix(path, "/down.sql")
  {
    var head, base := CutPath(f.path);
    BaseIsCut(head, base);
    LowerCut(head, base);
    SuffixOfBase(ToLower(head), ToLower(base), ".sql");
    SuffixOfBase(ToLower(head), ToLower(base), ".down.sql");
    BaseIsName(ToLower(head), ToLower(base), "down.sql");
    assert "/" + "down.sql" == "/down.sql";
    assert !HasSuffix("down.sql", ".up.sql");
  }
}
