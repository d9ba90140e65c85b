/** Analyzing a changeset of migrations: classify each statement, then record what it did. */
module PostgresAnalyzer {
  import opened Text
  import opened Domain
  import opened Schema
  import opened Rules
  import opened Normalize

  import Sorting

  /** A changed file; `supported` is whether this analyzer claims where it sits. */
  datatype SourceFile = SourceFile(path: string, supported: bool, removed: bool, current: string)

  /** The grammar, which may refuse; and the characters that count as white space. */
  datatype Frontend = Frontend(parse: string -> Option<seq<Statement>>, space: SpaceTest)

  predicate PathLe(a: SourceFile, b: SourceFile) { LexLe(a.path, b.path) }

  function BaseName(path: string): string { var parts := Split(path, '/'); parts[|parts| - 1] }

  predicate IsDown(path: string) {
    var lower := ToLower(BaseName(path));
    HasSuffix(lower, ".down.sql") || (!HasSuffix(lower, ".up.sql") && lower == "down.sql")
  }

  predicate IsMigration(path: string) { HasSuffix(ToLower(BaseName(path)), ".sql") }

  predicate IsUp(f: SourceFile) { f.supported && !f.removed && IsMigration(f.path) && !IsDown(f.path) }

  // ---------------------------------------------------------------- one file

  /** The first line with anything on it, and its number; line 1 when there is none. */
  function FirstNonEmpty(space: SpaceTest, lines: seq<string>, number: nat): (nat, string) {
    if lines == [] then (1, "")
    else
      var trimmed := TrimBy(space, lines[0]);
      if trimmed != "" then (number, trimmed) else FirstNonEmpty(space, lines[1..], number + 1)
  }

  function TrimBy(space: SpaceTest, s: string): string {
    if s != "" && space(s[0]) then TrimBy(space, s[1..])
    else if s != "" && space(s[|s| - 1]) then TrimBy(space, s[..|s| - 1])
    else s
  }

  function ParseFailure(fe: Frontend, f: SourceFile): Finding {
    var first := FirstNonEmpty(fe.space, Split(f.current, '\n'), 1);
    Finding("PG027", f.path, first.0, Normalized(fe.space, first.1), Unknown, LockExclusive, NoUndo, Subject("", ""), None)
  }

  function FindingFor(fe: Frontend, path: string, s: Statement, tables: Tables): Finding {
    var c := Classify(s, tables);
    Finding(RuleName(c.rule), path, s.line, Normalized(fe.space, s.sql), c.reversibility, c.lock,
            if c.undoable then Reverse(RuleName(c.rule), s.relation, s.target, s.newName) else NoUndo,
            Subject(s.relation, s.target), None)
  }

  /** How one statement is judged in a given state. */
  type Judge = (Statement, Tables) -> Finding

  function JudgeFor(fe: Frontend, path: string): Judge {
    (s: Statement, tables: Tables) => FindingFor(fe, path, s, tables)
  }

  /** Each statement judged in the state the ones before it left. */
  function StatementFindings(judge: Judge, tables: Tables, statements: seq<Statement>): seq<Finding> {
    if statements == [] then []
    else
      var n := |statements| - 1;
      StatementFindings(judge, tables, statements[..n]) + [judge(statements[n], Replay(tables, statements[..n]))]
  }

  function FileFindings(fe: Frontend, tables: Tables, f: SourceFile): seq<Finding> {
    match fe.parse(f.current)
    case None => [ParseFailure(fe, f)]
    case Some(statements) => StatementFindings(JudgeFor(fe, f.path), tables, statements)
  }

  function FileEffect(fe: Frontend, tables: Tables, f: SourceFile): Tables {
    match fe.parse(f.current) case None => tables case Some(statements) => Replay(tables, statements)
  }

  method AnalyzeFile(fe: Frontend, f: SourceFile, schema: SchemaTracker) returns (out: seq<Finding>)
    modifies schema
    ensures out == FileFindings(fe, old(schema.tables), f)
    ensures schema.tables == FileEffect(fe, old(schema.tables), f)
  {
    var parsed := fe.parse(f.current);
    if parsed.None? {
      return [ParseFailure(fe, f)];
    }
    var statements := parsed.value;
    out := [];
    for i := 0 to |statements|
      invariant out == StatementFindings(JudgeFor(fe, f.path), old(schema.tables), statements[..i])
      invariant schema.tables == Replay(old(schema.tables), statements[..i])
    {
      assert statements[..i + 1][..i] == statements[..i];
      var finding := FindingFor(fe, f.path, statements[i], schema.tables);
      schema.Apply(statements[i]);
      out := out + [finding];
    }
    assert statements[..|statements|] == statements;
  }

  // ---------------------------------------------------------------- the changeset

  /** What analysis does with one file: whether it reads it, what it finds, what it leaves behind. */
  datatype Reader = Reader(
    isUp: SourceFile -> bool, findings: (Tables, SourceFile) -> seq<Finding>, effect: (Tables, SourceFile) -> Tables)

  function ReaderFor(fe: Frontend): Reader {
    Reader(IsUp, (t: Tables, f: SourceFile) => FileFindings(fe, t, f), (t: Tables, f: SourceFile) => FileEffect(fe, t, f))
  }

  function TablesAfter(r: Reader, files: seq<SourceFile>): Tables {
    if files == [] then map[]
    else
      var n := |files| - 1;
      var before := TablesAfter(r, files[..n]);
      if r.isUp(files[n]) then r.effect(before, files[n]) else before
  }

  function FindingsInOrder(r: Reader, files: seq<SourceFile>): seq<Finding> {
    if files == [] then []
    else
      var n := |files| - 1;
      FindingsInOrder(r, files[..n]) +
      (if r.isUp(files[n]) then r.findings(TablesAfter(r, files[..n]), files[n]) else [])
  }

  function Analysis(r: Reader, files: seq<SourceFile>): seq<Finding> {
    Sorting.Sort(FindingLe, FindingsInOrder(r, Sorting.Sort(PathLe, files)))
  }

  lemma OneMoreFile(r: Reader, ordered: seq<SourceFile>, i: nat)
    requires i < |ordered|
    ensures var f, tables := ordered[i], TablesAfter(r, ordered[..i]);
      && FindingsInOrder(r, ordered[..i + 1]) ==
         FindingsInOrder(r, ordered[..i]) + (if r.isUp(f) then r.findings(tables, f) else [])
      && TablesAfter(r, ordered[..i + 1]) == if r.isUp(f) then r.effect(tables, f) else tables
  {
    assert ordered[..i + 1][..i] == ordered[..i];
  }

  /** Files in path order, one tracker for all of them, findings in canonical order. */
  method AnalyzeChangeset(fe: Frontend, files: seq<SourceFile>) returns (findings: seq<Finding>)
    ensures findings == Analysis(ReaderFor(fe), files)
  {
    var schema := new SchemaTracker();
    var ordered := Sorting.Sort(PathLe, files);
    findings := [];
    for i := 0 to |ordered|
      invariant fresh(schema)
      invariant findings == FindingsInOrder(ReaderFor(fe), ordered[..i])
      invariant schema.tables == TablesAfter(ReaderFor(fe), ordered[..i])
    {
      var f := ordered[i];
      OneMoreFile(ReaderFor(fe), ordered, i);
      if !f.supported || f.removed {
        continue;
      }
      if !IsMigration(f.path) || IsDown(f.path) {
        continue;
      }
      var found := AnalyzeFile(fe, f, schema);
      findings := findings + found;
    }
    assert ordered[..|ordered|] == ordered;
    findings := Sorting.Sort(FindingLe, findings);
  }

  // ---------------------------------------------------------------- what it promises

  lemma PathOrder()
    ensures Sorting.TotalPreorder(PathLe)
  {
    forall a: SourceFile, b: SourceFile ensures PathLe(a, b) || PathLe(b, a) {
      LexTotal(a.path, b.path);
    }
    forall a: SourceFile, b: SourceFile, c: SourceFile | PathLe(a, b) && PathLe(b, c) ensures PathLe(a, c) {
      LexTransitive(a.path, b.path, c.path);
    }
  }

  predicate DistinctPaths(files: seq<SourceFile>) {
    forall i, j | 0 <= i < j < |files| :: files[i].path != files[j].path
  }

  /** The order files are handed over in does not matter, when no two share a path. */
  lemma AnalysisIgnoresFileOrder(r: Reader, files: seq<SourceFile>, reordered: seq<SourceFile>)
    requires DistinctPaths(files) && multiset(files) == multiset(reordered)
    ensures Analysis(r, files) == Analysis(r, reordered)
  {
    PathOrder();
    forall a, b | a in files && b in files && PathLe(a, b) && PathLe(b, a) ensures a == b {
      LexAntisymmetric(a.path, b.path);
      var i :| 0 <= i < |files| && files[i] == a;
      var j :| 0 <= j < |files| && files[j] == b;
    }
    Sorting.SortIgnoresOrder(PathLe, files, reordered);
  }

  /** Later statements never change what was said about earlier ones. */
  lemma {:induction false} EarlierFindingsStand(
    judge: Judge, tables: Tables, statements: seq<Statement>, more: seq<Statement>)
    ensures StatementFindings(judge, tables, statements + more) ==
            StatementFindings(judge, tables, statements) +
            StatementFindings(judge, Replay(tables, statements), more)
  {
    if more == [] {
      assert statements + more == statements;
    } else {
      var n := |more| - 1;
      var all := statements + more;
      assert all[..|all| - 1] == statements + more[..n] && all[|all| - 1] == more[n];
      EarlierFindingsStand(judge, tables, statements, more[..n]);
      ReplayConcat(tables, statements, more[..n]);
    }
  }

  lemma {:induction false} InertTail(r: Reader, files: seq<SourceFile>, tail: seq<SourceFile>)
    requires forall f | f in tail :: !r.isUp(f)
    ensures FindingsInOrder(r, files + tail) == FindingsInOrder(r, files)
  {
    if tail == [] {
      assert files + tail == files;
    } else {
      var n := |tail| - 1;
      var all := files + tail;
      assert all[..|all| - 1] == files + tail[..n] && all[|all| - 1] == tail[n];
      assert tail[n] in tail;
      InertTail(r, files, tail[..n]);
    }
  }

  lemma LastFileFindings(r: Reader, before: seq<SourceFile>, f: SourceFile, after: seq<SourceFile>)
    requires Sorting.Sorted(PathLe, before + [f] + after)
    requires r.isUp(f) && forall g | g in after :: !r.isUp(g)
    ensures multiset(Analysis(r, before + [f] + after)) ==
            multiset(FindingsInOrder(r, before)) + multiset(r.findings(TablesAfter(r, before), f))
  {
    Sorting.SortFixed(PathLe, before + [f] + after);
    InertTail(r, before + [f], after);
    assert (before + [f])[..|before|] == before;
  }

  /** One more file content that only adds findings, in the file applied last, only adds findings. */
  lemma LongerFileOnlyAdds(r: Reader, before: seq<SourceFile>, f: SourceFile, longer: SourceFile, after: seq<SourceFile>)
    requires Sorting.Sorted(PathLe, before + [f] + after) && longer.path == f.path
    requires r.isUp(f) && r.isUp(longer) && forall g | g in after :: !r.isUp(g)
    requires multiset(r.findings(TablesAfter(r, before), f)) <= multiset(r.findings(TablesAfter(r, before), longer))
    ensures multiset(Analysis(r, before + [f] + after)) <= multiset(Analysis(r, before + [longer] + after))
  {
    SamePathsSameOrder(before, f, longer, after);
    LastFileFindings(r, before, f, after);
    LastFileFindings(r, before, longer, after);
  }

  /**
   Appending statements to the last up migration in path order only adds findings: everything
   found before is still found, word for word.
   */
  lemma AppendingOnlyAdds(
    fe: Frontend, before: seq<SourceFile>, f: SourceFile, longer: SourceFile, after: seq<SourceFile>,
    statements: seq<Statement>, more: seq<Statement>)
    requires Sorting.Sorted(PathLe, before + [f] + after)
    requires IsUp(f) && longer == f.(current := longer.current) && forall g | g in after :: !IsUp(g)
    requires fe.parse(f.current) == Some(statements) && fe.parse(longer.current) == Some(statements + more)
    ensures multiset(Analysis(ReaderFor(fe), before + [f] + after)) <=
            multiset(Analysis(ReaderFor(fe), before + [longer] + after))
  {
    var r := ReaderFor(fe);
    EarlierFindingsStand(JudgeFor(fe, f.path), TablesAfter(r, before), statements, more);
    LongerFileOnlyAdds(r, before, f, longer, after);
  }

  lemma SamePathsSameOrder(before: seq<SourceFile>, f: SourceFile, longer: SourceFile, after: seq<SourceFile>)
    requires Sorting.Sorted(PathLe, before + [f] + after) && longer.path == f.path
    ensures Sorting.Sorted(PathLe, before + [longer] + after)
  {
    var a, b := before + [f] + after, before + [longer] + after;
    forall i, j | 0 <= i < j < |b| ensures PathLe(b[i], b[j]) {
      assert a[i].path == b[i].path && a[j].path == b[j].path;
      assert PathLe(a[i], a[j]);
    }
  }

  /** Findings as analyzed carry no production context, which is what enrichment relies on. */
  lemma {:induction false} AnalysisHasNoContext(r: Reader, files: seq<SourceFile>)
    requires forall t, f :: forall g | g in r.findings(t, f) :: g.context.None?
    ensures forall g | g in FindingsInOrder(r, files) :: g.context.None?
  {
    if files != [] {
      AnalysisHasNoContext(r, files[..|files| - 1]);
    }
  }

  lemma {:induction false} StatementsHaveNoContext(judge: Judge, tables: Tables, statements: seq<Statement>)
    requires forall s, t :: judge(s, t).context.None?
    ensures forall g | g in StatementFindings(judge, tables, statements) :: g.context.None?
  {
    if statements != [] {
      StatementsHaveNoContext(judge, tables, statements[..|statements| - 1]);
    }
  }

  /** So what the analyzer hands on satisfies what the context ratchet asks of it. */
  lemma AnalyzedFindingsHaveNoContext(fe: Frontend, files: seq<SourceFile>)
    ensures forall g | g in Analysis(ReaderFor(fe), files) :: g.context.None?
  {
    forall t, f ensures forall g | g in FileFindings(fe, t, f) :: g.context.None? {
      match fe.parse(f.current) {
        case None =>
        case Some(statements) => StatementsHaveNoContext(JudgeFor(fe, f.path), t, statements);
      }
    }
    var inOrder := FindingsInOrder(ReaderFor(fe), Sorting.Sort(PathLe, files));
    AnalysisHasNoContext(ReaderFor(fe), Sorting.Sort(PathLe, files));
    forall g | g in Analysis(ReaderFor(fe), files) ensures g.context.None? {
      assert g in multiset(Sorting.Sort(FindingLe, inOrder));
      assert g in inOrder;
    }
  }
}
