/** From migration files to the certificate: what comparing two changesets promises. */
module Changesets {
  import opened Domain
  import opened Dominance
  import opened Scorer
  import opened ScoreProperties
  import opened Snapshot
  import opened Policy
  import opened CoverageCheck
  import opened Certify
  import opened Pipeline
  import opened Schema
  import opened PostgresAnalyzer
  import Sorting
  import Text

  // ---------------------------------------------------------------- one UNKNOWN finding

  /**
   The policy lifts an UNKNOWN finding: its overrides escalate and end at IRREVERSIBLE, a waiver is
   live for it, and no snapshot shows it to fail.
   */
  predicate Lifts(e: Engine, run: RunConfig, f: Finding) {
    && CalledIrreversible(OverridesOf(e.policy), f.ruleID)
    && Escalates(f.reversibility, Named(OverridesOf(e.policy), f.ruleID))
    && (exists w | w in WaiversOf(e.policy) :: Live(run.covers, e.today, w, f))
    && !(e.context.Some? && f.ruleID == "PG017" && HasNulls(e.context.value, f))
  }

  /** A finding that ends up waived, its overrides accepted. */
  predicate EndsWaived(e: Engine, run: RunConfig, f: Finding) {
    Fate(e, f).Ok? && !Remains(e, run)(Fate(e, f).value)
  }

  lemma UnknownWaivedByPolicyExactly(e: Engine, run: RunConfig, f: Finding)
    requires f.context.None? && f.reversibility.Unknown?
    ensures EndsWaived(e, run, f) <==> Lifts(e, run, f)
    ensures Fate(e, f).Ok? ==> Blocks(Fate(e, f).value)
  {
    var overrides, waivers, g := OverridesOf(e.policy), WaiversOf(e.policy), EnrichOne(e.context, f);
    if e.context.Some? {
      EnrichedIsRatchet(e.context.value, f);
    }
    TightenedMeaning(overrides, g);
    assert forall w :: Live(run.covers, e.today, w, g) == Live(run.covers, e.today, w, f);
    if Tightened(overrides, g).Ok? {
      if g.reversibility.Unknown? {
        UnknownWaivedExactly(overrides, run.covers, e.today, waivers, g);
      } else {
        WillFailNeverWaived(overrides, run.covers, e.today, waivers, g);
      }
    }
  }

  lemma CountingPermutes(e: Engine, run: RunConfig, xs: seq<Finding>, ys: seq<Finding>)
    requires multiset(xs) == multiset(ys)
    ensures multiset(Counting(e, run, xs)) == multiset(Filter(Remains(e, run), Map(Resolved(e), ys)))
  {
    var sorted := Sorting.Sort(FindingLe, xs);
    MapPermutes(Resolved(e), sorted, ys);
    FilterPermutes(Remains(e, run), Map(Resolved(e), sorted), Map(Resolved(e), ys));
  }

  lemma WaivedCountsForNothing(e: Engine, run: RunConfig, findings: seq<Finding>, rest: seq<Finding>, f: Finding)
    requires multiset(findings) == multiset(rest + [f]) && EndsWaived(e, run, f)
    ensures Accepted(e, findings) <==> Accepted(e, rest)
    ensures multiset(Counting(e, run, findings)) == multiset(Counting(e, run, rest))
  {
    forall g ensures g in findings <==> g in rest || g == f {
      assert g in multiset(findings) <==> g in multiset(rest + [f]);
    }
    CountingPermutes(e, run, findings, rest + [f]);
    CountingPermutes(e, run, rest, rest);
    MapConcat(Resolved(e), rest, [f]);
    assert Map(Resolved(e), [f]) == [Fate(e, f).value];
    FilterConcat(Remains(e, run), Map(Resolved(e), rest), [Fate(e, f).value]);
    FilterEmpty(Remains(e, run), [Fate(e, f).value]);
  }

  lemma SameCountingSameGrade(shape: Shape, a: Evidence, b: Evidence, xs: seq<Finding>, ys: seq<Finding>)
    requires multiset(xs) == multiset(ys) && a.down == b.down && a.failures == b.failures
    ensures GradeOf(ScoreOver(shape, a, xs)) == GradeOf(ScoreOver(shape, b, ys))
  {
    GradeIgnoresOrder(ScoreOver(shape, b, ys), xs);
  }

  /** What still counts and blocks makes the effective grade F. */
  lemma BlockerThatCounts(e: Engine, run: RunConfig, files: seq<string>, evidence: Evidence, g: Finding)
    requires g in evidence.findings
    requires Fate(e, g).Ok? ==> Blocks(Fate(e, g).value) && Remains(e, run)(Fate(e, g).value)
    ensures Certified(e, run, files, evidence).effective == GradeF
  {
    EffectiveOfRun(e, run, files, evidence);
    if Accepted(e, evidence.findings) {
      StoppedByFinding(e, run, ShapeOf(run, files), evidence);
      assert EndsBlocking(e, g) && Remains(e, run)(Resolved(e)(g));
    }
  }

  lemma StoppedIsF(shape: Shape, evidence: Evidence, d: Decision)
    requires Stopped(ScoreOver(shape, evidence, d.all))
    ensures var cert := CertificateFor(shape, evidence, Ok(d)); cert.grade == GradeF && cert.gate == GateFail
  {
  }

  lemma BlockerIsF(e: Engine, run: RunConfig, files: seq<string>, evidence: Evidence, g: Finding)
    requires g in evidence.findings && (Fate(e, g).Ok? ==> Blocks(Fate(e, g).value))
    ensures Certified(e, run, files, evidence).grade == GradeF && Certified(e, run, files, evidence).gate == GateFail
  {
    var decision := DecisionFor(e, run, evidence.findings);
    DecisionByFinding(e, run, evidence.findings);
    if decision.Ok? {
      StoppedByFinding(e, run, ShapeOf(run, files), evidence);
      assert EndsBlocking(e, g);
      StoppedIsF(ShapeOf(run, files), evidence, decision.value);
    }
  }

  /**
   A statement nobody could classify fixes the grade at F and shuts the gate, whatever else the run
   holds. It fixes the effective grade at F too, unless the policy lifts it; and then it counts for
   nothing, as if it had not been found.
   */
  lemma UnclassifiedIsF(
    e: Engine, run: RunConfig, files: seq<string>, evidence: Evidence, rest: seq<Finding>, f: Finding)
    requires multiset(evidence.findings) == multiset(rest + [f]) && f.context.None? && f.reversibility.Unknown?
    ensures Certified(e, run, files, evidence).grade == GradeF && Certified(e, run, files, evidence).gate == GateFail
    ensures Certified(e, run, files, evidence).effective ==
            if Lifts(e, run, f) then Certified(e, run, files, evidence.(findings := rest)).effective else GradeF
  {
    assert (rest + [f])[|rest|] == f && f in multiset(evidence.findings);
    UnknownWaivedByPolicyExactly(e, run, f);
    BlockerIsF(e, run, files, evidence, f);
    if Lifts(e, run, f) {
      var without := evidence.(findings := rest);
      WaivedCountsForNothing(e, run, evidence.findings, rest, f);
      EffectiveOfRun(e, run, files, evidence);
      EffectiveOfRun(e, run, files, without);
      SameCountingSameGrade(ShapeOf(run, files), evidence, without,
                            Counting(e, run, evidence.findings), Counting(e, run, rest));
    } else {
      BlockerThatCounts(e, run, files, evidence, f);
    }
  }

  /** The exception is real: lifted, a lone UNKNOWN finding of a complete run is effectively an A. */
  lemma LiftedUnknownIsEffectivelyA(e: Engine, run: RunConfig, files: seq<string>, evidence: Evidence, f: Finding)
    requires evidence.findings == [f] && f.context.None? && f.reversibility.Unknown? && Lifts(e, run, f)
    requires AnyClaimed(run.site, files) && Whole(run, files) && evidence.failures == [] && AllSound(evidence.down)
    ensures Certified(e, run, files, evidence).grade == GradeF
    ensures Certified(e, run, files, evidence).effective == GradeA
  {
    assert [] + [f] == [f];
    UnclassifiedIsF(e, run, files, evidence, [], f);
    GradeOfNothing(e, run, files, evidence.(findings := []));
  }

  // ---------------------------------------------------------------- appending

  /** The findings of one changeset, with whatever other analyzers reported beside them. */
  ghost function Gathered(fe: Frontend, sources: seq<SourceFile>, others: Evidence): Evidence {
    others.(findings := others.findings + Analysis(ReaderFor(fe), sources))
  }

  /** Neither grade nor gate improves; the effective grade does exactly when lifted, and better without the file. */
  predicate HelpsOnlyLifted(better: Certificate, worse: Certificate, lifted: bool, without: Certificate) {
    && worse.grade.Rank() <= better.grade.Rank()
    && (worse.gate.GatePass? ==> better.gate.GatePass?)
    && (worse.effective.Rank() > better.effective.Rank() <==>
          lifted && without.effective.Rank() > better.effective.Rank())
  }

  /**
   Appending to the migration applied last never helps the grade or the gate: either the longer file
   parses, and every earlier statement is judged as it was, or it does not, and the run is graded F.
   The effective grade rises in exactly one case: the longer file does not parse, the policy lifts
   the parse failure, and the change was held down by what the file used to say.
   */
  lemma AppendingNeverHelps(
    e: Engine, run: RunConfig, names: seq<string>, others: Evidence,
    fe: Frontend, before: seq<SourceFile>, f: SourceFile, longer: SourceFile, after: seq<SourceFile>,
    statements: seq<Statement>, more: seq<Statement>)
    requires AnyClaimed(run.site, names)
    requires Sorting.Sorted(PathLe, before + [f] + after)
    requires IsUp(f) && longer == f.(current := longer.current) && forall g | g in after :: !IsUp(g)
    requires fe.parse(f.current) == Some(statements)
    requires fe.parse(longer.current).None? || fe.parse(longer.current) == Some(statements + more)
    ensures HelpsOnlyLifted(Certified(e, run, names, Gathered(fe, before + [f] + after, others)),
                            Certified(e, run, names, Gathered(fe, before + [longer] + after, others)),
                            fe.parse(longer.current).None? && Lifts(e, run, ParseFailure(fe, longer)),
                            Certified(e, run, names, Gathered(fe, before + after, others)))
  {
    match fe.parse(longer.current) {
      case Some(_) =>
        AppendingOnlyAdds(fe, before, f, longer, after, statements, more);
        GatheringMoreNeverHelps(e, run, names, others, Analysis(ReaderFor(fe), before + [f] + after),
                                Analysis(ReaderFor(fe), before + [longer] + after));
      case None =>
        SamePathsSameOrder(before, f, longer, after);
        UnreadIsF(e, run, names, others, fe, before, longer, after);
        GradesRank(e, run, names, Gathered(fe, before + [f] + after, others));
        FNeverHelps(Certified(e, run, names, Gathered(fe, before + [f] + after, others)),
                    Certified(e, run, names, Gathered(fe, before + [longer] + after, others)),
                    Lifts(e, run, ParseFailure(fe, longer)),
                    Certified(e, run, names, Gathered(fe, before + after, others)));
    }
  }

  lemma FNeverHelps(better: Certificate, worse: Certificate, lifted: bool, without: Certificate)
    requires worse.grade == GradeF && worse.gate == GateFail
    requires worse.effective == if lifted then without.effective else GradeF
    requires better.grade.Rank() >= 0 && better.effective.Rank() >= 0
    ensures HelpsOnlyLifted(better, worse, lifted, without)
  {
  }

  lemma GradesRank(e: Engine, run: RunConfig, files: seq<string>, evidence: Evidence)
    requires AnyClaimed(run.site, files)
    ensures Certified(e, run, files, evidence).grade.Rank() >= 0
    ensures Certified(e, run, files, evidence).effective.Rank() >= 0
  {
    var shape, decision := ShapeOf(run, files), DecisionFor(e, run, evidence.findings);
    OutcomeByPaths(run, files);
    CertificateRanks(shape, evidence, decision);
  }

  lemma CertificateRanks(shape: Shape, evidence: Evidence, decision: Result<Decision, PolicyError>)
    requires shape.outcome.Analyzed?
    ensures CertificateFor(shape, evidence, decision).grade.Rank() >= 0
    ensures CertificateFor(shape, evidence, decision).effective.Rank() >= 0
  {
    if decision.Ok? {
      var d := decision.value;
      GradeIsSet(ScoreOver(shape, evidence, d.all));
      GradeIsSet(ScoreOver(shape, evidence, if |d.waived| > 0 then d.findings else d.all));
    }
  }

  /** A file that does not parse, applied last: graded F, and lifted it is as if the file were not there. */
  lemma UnreadIsF(
    e: Engine, run: RunConfig, names: seq<string>, others: Evidence,
    fe: Frontend, before: seq<SourceFile>, f: SourceFile, after: seq<SourceFile>)
    requires Sorting.Sorted(PathLe, before + [f] + after)
    requires IsUp(f) && fe.parse(f.current).None? && forall g | g in after :: !IsUp(g)
    ensures var b := Certified(e, run, names, Gathered(fe, before + [f] + after, others));
      && b.grade == GradeF && b.gate == GateFail
      && b.effective == if Lifts(e, run, ParseFailure(fe, f))
                        then Certified(e, run, names, Gathered(fe, before + after, others)).effective else GradeF
  {
    var sources, rest := before + [f] + after, Gathered(fe, before + after, others).findings;
    UnreadAddsOne(fe, before, f, after);
    JoinedToOthers(others.findings, Analysis(ReaderFor(fe), sources), Analysis(ReaderFor(fe), before + after),
                   ParseFailure(fe, f));
    UnclassifiedIsF(e, run, names, Gathered(fe, sources, others), rest, ParseFailure(fe, f));
  }

  lemma JoinedToOthers(others: seq<Finding>, more: seq<Finding>, rest: seq<Finding>, f: Finding)
    requires multiset(more) == multiset(rest) + multiset{f}
    ensures multiset(others + more) == multiset((others + rest) + [f])
  {
  }

  /** All such a file adds to what the other files report is its parse failure. */
  lemma UnreadAddsOne(fe: Frontend, before: seq<SourceFile>, f: SourceFile, after: seq<SourceFile>)
    requires Sorting.Sorted(PathLe, before + [f] + after)
    requires IsUp(f) && fe.parse(f.current).None? && forall g | g in after :: !IsUp(g)
    ensures multiset(Analysis(ReaderFor(fe), before + [f] + after)) ==
            multiset(Analysis(ReaderFor(fe), before + after)) + multiset{ParseFailure(fe, f)}
  {
    var r := ReaderFor(fe);
    LastFileFindings(r, before, f, after);
    assert r.findings(TablesAfter(r, before), f) == [ParseFailure(fe, f)];
    WithoutFileSorted(before, f, after);
    Sorting.SortFixed(PathLe, before + after);
    InertTail(r, before, after);
  }

  lemma WithoutFileSorted(before: seq<SourceFile>, f: SourceFile, after: seq<SourceFile>)
    requires Sorting.Sorted(PathLe, before + [f] + after)
    ensures Sorting.Sorted(PathLe, before + after)
  {
    var all, rest := before + [f] + after, before + after;
    forall i, j | 0 <= i < j < |rest| ensures PathLe(rest[i], rest[j]) {
      var i', j' := if i < |before| then i else i + 1, if j < |before| then j else j + 1;
      assert rest[i] == all[i'] && rest[j] == all[j'];
    }
  }

  lemma GatheringMoreNeverHelps(
    e: Engine, run: RunConfig, names: seq<string>, others: Evidence, xs: seq<Finding>, ys: seq<Finding>)
    requires AnyClaimed(run.site, names) && multiset(xs) <= multiset(ys)
    ensures NeverHelps(Certified(e, run, names, others.(findings := others.findings + xs)),
                       Certified(e, run, names, others.(findings := others.findings + ys)))
  {
    MoreFindingsNeverHelp(e, run, names, others.(findings := others.findings + xs), others.findings + ys);
  }

  /** Analyzed migrations satisfy what the context ratchet asks, so it holds from the files on. */
  lemma ContextNeverHelpsMigrations(
    e: Engine, s: SnapshotSet, run: RunConfig, names: seq<string>, others: Evidence,
    fe: Frontend, sources: seq<SourceFile>)
    requires e.context.None? && forall f | f in others.findings :: f.context.None?
    requires AnyClaimed(run.site, names)
    ensures NeverHelps(Certified(e, run, names, Gathered(fe, sources, others)),
                       Certified(e.(context := Some(s)), run, names, Gathered(fe, sources, others)))
  {
    AnalyzedFindingsHaveNoContext(fe, sources);
    var evidence := Gathered(fe, sources, others);
    assert forall f | f in evidence.findings :: f.context.None?;
    ContextNeverHelps(e, s, run, names, evidence);
  }

  // ---------------------------------------------------------------- the case in which it rises

  lemma DropTableCounts(e: Engine, run: RunConfig, fe: Frontend, path: string, drop: Statement)
    requires drop.kind.DropTable? && !drop.cascade && e.context.None?
    requires forall o | o in OverridesOf(e.policy) :: o.rule == "PG027"
    requires forall w | w in WaiversOf(e.policy) :: w.rule == "PG027"
    ensures var g := FindingFor(fe, path, drop, map[]);
      Fate(e, g) == Ok(g) && Blocks(g) && Remains(e, run)(g)
  {
    var g := FindingFor(fe, path, drop, map[]);
    assert g.ruleID == "PG001" && g.ruleID[4] != "PG027"[4];
    var named := Named(OverridesOf(e.policy), g.ruleID);
    FilterEmpty((o: Override) => AppliesTo(g.ruleID, o), OverridesOf(e.policy));
    TightenedMeaning(OverridesOf(e.policy), g);
  }

  lemma OneFileAnalysis(fe: Frontend, f: SourceFile, drop: Statement)
    requires IsUp(f) && fe.parse(f.current) == Some([drop])
    ensures FindingFor(fe, f.path, drop, map[]) in Analysis(ReaderFor(fe), [f])
  {
    var r, judge := ReaderFor(fe), JudgeFor(fe, f.path);
    assert [] + [f] + [] == [f];
    LastFileFindings(r, [], f, []);
    assert [drop][..0] == [] && r.findings(map[], f) == StatementFindings(judge, map[], [drop]);
    assert StatementFindings(judge, map[], [drop])[0] == FindingFor(fe, f.path, drop, map[]);
    assert FindingFor(fe, f.path, drop, map[]) in multiset(Analysis(r, [f]));
  }

  /** The last up migration is one DROP TABLE, and its longer text does not parse. */
  ghost predicate BreaksDropTable(
    e: Engine, run: RunConfig, names: seq<string>, others: Evidence, fe: Frontend, f: SourceFile, longer: SourceFile)
  {
    && AnyClaimed(run.site, names) && Whole(run, names)
    && others.findings == [] && others.failures == [] && AllSound(others.down)
    && IsUp(f) && longer == f.(current := longer.current) && fe.parse(longer.current).None?
    && (exists drop: Statement :: drop.kind.DropTable? && !drop.cascade && fe.parse(f.current) == Some([drop]))
    && e.context.None? && Lifts(e, run, ParseFailure(fe, longer))
    && (forall o | o in OverridesOf(e.policy) :: o.rule == "PG027")
    && (forall w | w in WaiversOf(e.policy) :: w.rule == "PG027")
  }

  lemma DropTableIsF(
    e: Engine, run: RunConfig, names: seq<string>, others: Evidence, fe: Frontend, f: SourceFile, drop: Statement)
    requires IsUp(f) && drop.kind.DropTable? && !drop.cascade && fe.parse(f.current) == Some([drop]) && e.context.None?
    requires forall o | o in OverridesOf(e.policy) :: o.rule == "PG027"
    requires forall w | w in WaiversOf(e.policy) :: w.rule == "PG027"
    ensures Certified(e, run, names, Gathered(fe, [f], others)).effective == GradeF
  {
    DropTableCounts(e, run, fe, f.path, drop);
    OneFileAnalysis(fe, f, drop);
    BlockerThatCounts(e, run, names, Gathered(fe, [f], others), FindingFor(fe, f.path, drop, map[]));
  }

  lemma LoneUnreadIsA(
    e: Engine, run: RunConfig, names: seq<string>, others: Evidence, fe: Frontend, f: SourceFile)
    requires AnyClaimed(run.site, names) && Whole(run, names)
    requires others.findings == [] && others.failures == [] && AllSound(others.down)
    requires IsUp(f) && fe.parse(f.current).None? && Lifts(e, run, ParseFailure(fe, f))
    ensures Certified(e, run, names, Gathered(fe, [f], others)).effective == GradeA
  {
    var none: seq<SourceFile> := [];
    assert none + [f] + none == [f] && none + none == none;
    UnreadIsF(e, run, names, others, fe, none, f, none);
    assert Gathered(fe, none, others).findings == [];
    GradeOfNothing(e, run, names, Gathered(fe, none, others));
  }

  /** Breaking such a file so that it no longer parses takes the effective grade from F to A. */
  lemma BrokenDropTableIsEffectivelyA(
    e: Engine, run: RunConfig, names: seq<string>, others: Evidence, fe: Frontend, f: SourceFile, longer: SourceFile)
    requires BreaksDropTable(e, run, names, others, fe, f, longer)
    ensures Certified(e, run, names, Gathered(fe, [f], others)).effective == GradeF
    ensures Certified(e, run, names, Gathered(fe, [longer], others)).effective == GradeA
  {
    var drop: Statement :| drop.kind.DropTable? && !drop.cascade && fe.parse(f.current) == Some([drop]);
    DropTableIsF(e, run, names, others, fe, f, drop);
    LoneUnreadIsA(e, run, names, others, fe, longer);
  }

  lemma SqlFileIsUp(text: string)
    ensures IsUp(SourceFile("a.sql", true, false, text))
  {
    Text.SplitPlain("a.sql", '/');
    var lower := Text.ToLower(BaseName("a.sql"));
    assert lower == "a.sql" && lower[1..] == ".sql";
    assert |".down.sql"| == 9 && |"down.sql"| == 8;
  }

  lemma OnlyFileIsWhole()
    returns (run: RunConfig, names: seq<string>)
    ensures AnyClaimed(run.site, names) && Whole(run, names) && forall pattern, file :: run.covers(pattern, file)
  {
    var none := (at: seq<string>) => false;
    run := RunConfig(Site((p: string) => [p], (at: seq<string>) => true, none, none),
                     (pattern: string, file: string) => true, [], []);
    names := ["a.sql"];
    assert names[0] == "a.sql" && run.site.supports(run.site.locate("a.sql"));
  }

  lemma LiftingPolicy(run: RunConfig) returns (e: Engine)
    ensures e.context.None?
    ensures forall o | o in OverridesOf(e.policy) :: o.rule == "PG027"
    ensures forall w | w in WaiversOf(e.policy) :: w.rule == "PG027"
    ensures forall f: Finding | f.ruleID == "PG027" && f.reversibility.Unknown? :: Lifts(e, run, f)
  {
    var o, w := Override("PG027", Irreversible), Waiver("PG027", "", "accepted", Some(0), "");
    e := Engine(Some(PolicyFile(OtherGrade(""), [], [w], [o])), 0, None);
    assert [o][1..] == [] && Named([o], "PG027") == [o];
    assert OverridesOf(e.policy) == [o] && WaiversOf(e.policy) == [w] && [w][0] == w;
    assert Escalates(Unknown, [o]) && CalledIrreversible([o], "PG027");
    forall f: Finding | f.ruleID == "PG027" && f.reversibility.Unknown? ensures Lifts(e, run, f) {
      assert Live(run.covers, e.today, w, f);
    }
  }

  /** And such a changeset exists. */
  lemma BrokenDropTableExists()
    ensures exists e, run, names, others, fe, f, longer :: BreaksDropTable(e, run, names, others, fe, f, longer)
  {
    var run, names := OnlyFileIsWhole();
    var e := LiftingPolicy(run);
    var fe, drop := OnlyDropTable();
    var f, longer := SourceFile("a.sql", true, false, ""), SourceFile("a.sql", true, false, "?");
    SqlFileIsUp("");
    assert Lifts(e, run, ParseFailure(fe, longer));
    assert BreaksDropTable(e, run, names, Evidence([], [], []), fe, f, longer);
  }

  lemma OnlyDropTable() returns (fe: Frontend, drop: Statement)
    ensures drop.kind.DropTable? && !drop.cascade && fe.parse("") == Some([drop]) && fe.parse("?").None?
  {
    var statement := Statement(DropTable, "", 1, "users", "", "", false, false, false, false, None,
                               false, false, false, NoConstraint, []);
    drop := statement;
    fe := Frontend((text: string) => if text == "" then Some([statement]) else None, (c: char) => c == ' ');
  }
}
