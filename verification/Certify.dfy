/** One run of the engine: from what the analyzers reported to a certificate. */
module Certify {
  import opened Text
  import opened Domain
  import opened Dominance
  import opened Paths
  import opened Scorer
  import opened Snapshot
  import opened Policy
  import opened CoverageCheck
  import Glob
  import Sorting
  import Undo

  datatype DownCheck = NotAValidator | Validated(statuses: seq<DownStatus>) | ValidationFailed(failure: string)

  /** What one analyzer did: failed, or reported findings and perhaps down-migration status. */
  datatype AnalyzerRun = Failed(failure: string) | Ran(findings: seq<Finding>, down: DownCheck)

  datatype Evidence = Evidence(findings: seq<Finding>, down: seq<DownStatus>, failures: seq<string>)

  datatype Engine = Engine(policy: Option<PolicyFile>, today: int, context: Option<SnapshotSet>)

  /** One changeset: the namespace its paths are decided in, and what the caller knows beyond the files. */
  datatype RunConfig = RunConfig(site: Site, covers: Covers, enumerated: seq<string>, ignoredByPolicy: seq<string>)

  /** The run the command line sets up: everything path-keyed goes through one locator. */
  function RunFor(supports: Supports, seg: Glob.SegmentMatcher, prefix: string,
                  enumerated: seq<string>, ignoredByPolicy: seq<string>): RunConfig
  {
    RunConfig(SiteFor(supports, prefix), CoversIn(seg, prefix), enumerated, ignoredByPolicy)
  }

  function CoversIn(seg: Glob.SegmentMatcher, prefix: string): Covers {
    (pattern: string, file: string) => Glob.Match(seg, pattern, Locate(prefix, file))
  }

  datatype UnanalyzedFile = UnanalyzedFile(path: string, reason: Reason)

  datatype Certificate = Certificate(
    grade: Grade, effective: Grade, gate: GateStatus, outcome: Outcome, coverage: Coverage,
    unanalyzed: seq<UnanalyzedFile>, ignoredByPolicy: seq<string>,
    findings: seq<Finding>, waived: seq<WaivedFinding>, undoPlan: seq<Undo.PlanLine>,
    blockers: seq<Blocker>, causes: seq<Cause>, deadWaivers: seq<nat>, down: seq<DownStatus>)

  // ---------------------------------------------------------------- collecting

  predicate MigrationLe(a: DownStatus, b: DownStatus) { LexLe(a.migration, b.migration) }

  function FindingsOf(runs: seq<AnalyzerRun>): seq<Finding> {
    if runs == [] then []
    else
      var n := |runs| - 1;
      FindingsOf(runs[..n]) + (if runs[n].Ran? then runs[n].findings else [])
  }

  function DownOf(runs: seq<AnalyzerRun>): seq<DownStatus> {
    if runs == [] then []
    else
      var n := |runs| - 1;
      DownOf(runs[..n]) + (if runs[n].Ran? && runs[n].down.Validated? then runs[n].down.statuses else [])
  }

  function FailureOf(run: AnalyzerRun): seq<string> {
    match run
    case Failed(e) => [e]
    case Ran(_, ValidationFailed(e)) => [e]
    case Ran(_, _) => []
  }

  function FailuresOf(runs: seq<AnalyzerRun>): seq<string> {
    if runs == [] then [] else FailuresOf(runs[..|runs| - 1]) + FailureOf(runs[|runs| - 1])
  }

  function Collected(runs: seq<AnalyzerRun>): Evidence {
    Evidence(FindingsOf(runs), Sorting.Sort(MigrationLe, DownOf(runs)), Sorting.Sort(LexLe, FailuresOf(runs)))
  }

  /** An analyzer that fails does not stop the others, and its failure is never dropped. */
  method Collect(runs: seq<AnalyzerRun>) returns (r: Evidence)
    ensures r == Collected(runs)
  {
    var findings: seq<Finding>, down: seq<DownStatus>, failures: seq<string> := [], [], [];
    for i := 0 to |runs|
      invariant findings == FindingsOf(runs[..i])
      invariant down == DownOf(runs[..i])
      invariant failures == FailuresOf(runs[..i])
    {
      assert runs[..i + 1][..i] == runs[..i];
      match runs[i] {
        case Failed(e) =>
          failures := failures + [e];
          continue;
        case Ran(got, check) =>
          findings := findings + got;
          match check {
            case NotAValidator => continue;
            case ValidationFailed(e) => failures := failures + [e];
            case Validated(statuses) => down := down + statuses;
          }
      }
    }
    assert runs[..|runs|] == runs;
    r := Evidence(findings, Sorting.Sort(MigrationLe, down), Sorting.Sort(LexLe, failures));
  }

  function Total(amount: AnalyzerRun -> nat, runs: seq<AnalyzerRun>): nat {
    if runs == [] then 0 else amount(runs[0]) + Total(amount, runs[1..])
  }

  lemma {:induction false} TotalSnoc(amount: AnalyzerRun -> nat, runs: seq<AnalyzerRun>, run: AnalyzerRun)
    ensures Total(amount, runs + [run]) == Total(amount, runs) + amount(run)
  {
    if runs == [] {
      assert runs + [run] == [run] && [run][1..] == [];
    } else {
      assert (runs + [run])[1..] == runs[1..] + [run];
      TotalSnoc(amount, runs[1..], run);
    }
  }

  /** How often one analyzer reports a finding, a down status, a failure. */
  function TimesFound(f: Finding): AnalyzerRun -> nat {
    (run: AnalyzerRun) => match run case Failed(_) => 0 case Ran(findings, _) => multiset(findings)[f]
  }

  function TimesValidated(s: DownStatus): AnalyzerRun -> nat {
    (run: AnalyzerRun) => match run case Ran(_, Validated(statuses)) => multiset(statuses)[s] case _ => 0
  }

  function TimesFailed(text: string): AnalyzerRun -> nat {
    (run: AnalyzerRun) => if run == Failed(text) || (run.Ran? && run.down == ValidationFailed(text)) then 1 else 0
  }

  lemma {:induction false} FoundInAll(runs: seq<AnalyzerRun>, f: Finding)
    ensures multiset(FindingsOf(runs))[f] == Total(TimesFound(f), runs)
  {
    if runs != [] {
      var n := |runs| - 1;
      FoundInAll(runs[..n], f);
      assert runs == runs[..n] + [runs[n]];
      TotalSnoc(TimesFound(f), runs[..n], runs[n]);
    }
  }

  lemma {:induction false} ValidatedInAll(runs: seq<AnalyzerRun>, s: DownStatus)
    ensures multiset(DownOf(runs))[s] == Total(TimesValidated(s), runs)
  {
    if runs != [] {
      var n := |runs| - 1;
      ValidatedInAll(runs[..n], s);
      assert runs == runs[..n] + [runs[n]];
      TotalSnoc(TimesValidated(s), runs[..n], runs[n]);
    }
  }

  lemma TimesInBoth<T>(a: seq<T>, b: seq<T>, x: T)
    ensures multiset(a + b)[x] == multiset(a)[x] + multiset(b)[x]
  {
  }

  lemma FailedOnce(run: AnalyzerRun, text: string)
    ensures multiset(FailureOf(run))[text] == TimesFailed(text)(run)
  {
    match run
    case Failed(e) => assert multiset([e])[text] == if e == text then 1 else 0;
    case Ran(_, ValidationFailed(e)) => assert multiset([e])[text] == if e == text then 1 else 0;
    case Ran(_, _) =>
  }

  lemma FailuresSnoc(runs: seq<AnalyzerRun>, run: AnalyzerRun)
    ensures FailuresOf(runs + [run]) == FailuresOf(runs) + FailureOf(run)
  {
    assert (runs + [run])[..|runs|] == runs;
  }

  lemma {:induction false} FailedInAll(runs: seq<AnalyzerRun>, text: string)
    ensures multiset(FailuresOf(runs))[text] == Total(TimesFailed(text), runs)
  {
    if runs != [] {
      var front, run := runs[..|runs| - 1], runs[|runs| - 1];
      assert runs == front + [run];
      FailedInAll(front, text);
      FailuresSnoc(front, run);
      TimesInBoth(FailuresOf(front), FailureOf(run), text);
      FailedOnce(run, text);
      TotalSnoc(TimesFailed(text), front, run);
    }
  }

  lemma {:induction false} TotalIsPositive(amount: AnalyzerRun -> nat, runs: seq<AnalyzerRun>)
    ensures Total(amount, runs) > 0 <==> exists run | run in runs :: amount(run) > 0
  {
    if runs != [] {
      TotalIsPositive(amount, runs[1..]);
      assert runs == [runs[0]] + runs[1..];
      assert runs[0] in runs;
    }
  }

  /**
   Nothing any analyzer found is lost or made up, whether or not it validates down migrations: every
   finding of every analyzer that ran, as often as it was reported.
   */
  lemma FindingsAreCollected(runs: seq<AnalyzerRun>, f: Finding)
    ensures f in Collected(runs).findings <==> exists run | run in runs :: run.Ran? && f in run.findings
    ensures multiset(Collected(runs).findings)[f] == Total(TimesFound(f), runs)
  {
    FoundInAll(runs, f);
    TotalIsPositive(TimesFound(f), runs);
    assert f in FindingsOf(runs) <==> multiset(FindingsOf(runs))[f] > 0;
    forall run ensures TimesFound(f)(run) > 0 <==> run.Ran? && f in run.findings {
    }
  }

  /** Every status of every validator that finished. */
  lemma StatusesAreCollected(runs: seq<AnalyzerRun>, s: DownStatus)
    ensures s in Collected(runs).down <==>
            exists run | run in runs :: run.Ran? && run.down.Validated? && s in run.down.statuses
    ensures multiset(Collected(runs).down)[s] == Total(TimesValidated(s), runs)
  {
    ValidatedInAll(runs, s);
    TotalIsPositive(TimesValidated(s), runs);
    assert s in Collected(runs).down <==> multiset(Collected(runs).down)[s] > 0;
    forall run ensures TimesValidated(s)(run) > 0 <==> run.Ran? && run.down.Validated? && s in run.down.statuses {
    }
  }

  /** Every failure, of an analyzer or of its validator. */
  lemma FailuresAreCollected(runs: seq<AnalyzerRun>, text: string)
    ensures text in Collected(runs).failures <==>
            exists run | run in runs :: run == Failed(text) || (run.Ran? && run.down == ValidationFailed(text))
    ensures multiset(Collected(runs).failures)[text] == Total(TimesFailed(text), runs)
  {
    FailedInAll(runs, text);
    TotalIsPositive(TimesFailed(text), runs);
    assert text in Collected(runs).failures <==> multiset(Collected(runs).failures)[text] > 0;
  }

  predicate Finished(run: AnalyzerRun) { run.Ran? && !run.down.ValidationFailed? }

  lemma {:induction false} FailuresNameUnfinished(runs: seq<AnalyzerRun>)
    ensures FailuresOf(runs) == [] <==> forall run | run in runs :: Finished(run)
  {
    if runs != [] {
      var n := |runs| - 1;
      FailuresNameUnfinished(runs[..n]);
      assert runs == runs[..n] + [runs[n]];
      assert runs[n] in runs;
      assert forall run | run in runs :: run in runs[..n] || run == runs[n];
    }
  }

  /** A run has no failures exactly when every analyzer, and every validator, finished. */
  lemma NoFailuresMeansAllFinished(runs: seq<AnalyzerRun>)
    ensures Collected(runs).failures == [] <==> forall run | run in runs :: Finished(run)
  {
    FailuresNameUnfinished(runs);
    assert |Sorting.Sort(LexLe, FailuresOf(runs))| == |FailuresOf(runs)|;
  }

  // ---------------------------------------------------------------- certifying

  function EnumeratedPaths(run: RunConfig, files: seq<string>): seq<string> {
    if run.enumerated == [] then files else run.enumerated
  }

  function CandidateAt(site: Site): string -> bool { (p: string) => site.candidate(site.locate(p)) }

  function Unanalyzed(site: Site, unsupported: seq<string>): seq<UnanalyzedFile> {
    Map((p: string) => UnanalyzedFile(p, ReasonFor(site.locate(p))), unsupported)
  }

  /** The certificate of a run that could not be completed. */
  function FailedCertificate(): Certificate {
    Certificate(GradeF, GradeF, GradeF.Gate(Full, 0), Analyzed, Full, [], [], [], [],
                [Undo.NoCompleteUndo], [AnalysisIncomplete("analysis did not run")], [DidNotComplete], [], [])
  }

  /** What the run was able to do at all: what it left unread, and what it was told to leave. */
  datatype Shape = Shape(
    outcome: Outcome, unsupported: seq<string>, unanalyzed: seq<UnanalyzedFile>,
    ignored: seq<string>, ignoredCandidates: nat)
  {
    function Coverage(): Coverage { if unsupported == [] then Full else Partial }
  }

  ghost function ShapeOf(run: RunConfig, files: seq<string>): Shape {
    var enumerated := EnumeratedPaths(run, files);
    var unsupported := Unsupported(run.site, files, enumerated);
    var ignored := Sorting.Sort(LexLe, run.ignoredByPolicy);
    Shape(OutcomeOf(run.site, files, enumerated), unsupported, Unanalyzed(run.site, unsupported),
          ignored, Count(CandidateAt(run.site), ignored))
  }

  /** What the policy decides about the sorted, enriched findings. */
  function DecisionFor(e: Engine, run: RunConfig, findings: seq<Finding>): Result<Decision, PolicyError> {
    Applied(e.policy, run.covers, e.today, EnrichAll(e.context, Sorting.Sort(FindingLe, findings)))
  }

  function ScoreOver(shape: Shape, evidence: Evidence, findings: seq<Finding>): ScoreInput {
    ScoreInput(findings, evidence.down, evidence.failures, shape.outcome, shape.unsupported)
  }

  function EffectiveGrade(shape: Shape, evidence: Evidence, d: Decision): Grade {
    GradeOf(ScoreOver(shape, evidence, if |d.waived| > 0 then d.findings else d.all))
  }

  function CertificateFor(shape: Shape, evidence: Evidence, decision: Result<Decision, PolicyError>): Certificate {
    match decision
    case Err(_) => FailedCertificate()
    case Ok(d) =>
      var scored := Scored(ScoreOver(shape, evidence, d.all));
      Certificate(scored.grade, EffectiveGrade(shape, evidence, d),
                  scored.grade.Gate(shape.Coverage(), shape.ignoredCandidates),
                  shape.outcome, shape.Coverage(), shape.unanalyzed, shape.ignored,
                  d.findings, d.waived, Undo.PlanOf(d.all),
                  scored.blockers, scored.causes, d.deadWaivers, evidence.down)
  }

  ghost function Certified(e: Engine, run: RunConfig, files: seq<string>, evidence: Evidence): Certificate {
    CertificateFor(ShapeOf(run, files), evidence, DecisionFor(e, run, evidence.findings))
  }

  method CountIgnored(candidate: string -> bool, ignored: seq<string>) returns (n: nat)
    ensures n == Count(candidate, ignored)
  {
    n := 0;
    for i := 0 to |ignored|
      invariant n == Count(candidate, ignored[..i])
    {
      FilterStep(candidate, ignored, i);
      if candidate(ignored[i]) {
        n := n + 1;
      }
    }
    assert ignored[..|ignored|] == ignored;
  }

  /** Collect, sort, enrich, apply the policy, establish coverage, score twice, close the gate. */
  method CertifyRun(e: Engine, run: RunConfig, files: seq<string>, runs: seq<AnalyzerRun>) returns (cert: Certificate)
    ensures cert == Certified(e, run, files, Collected(runs))
  {
    var ignored := Sorting.Sort(LexLe, run.ignoredByPolicy);
    var evidence := Collect(runs);
    var findings := Sorting.Sort(FindingLe, evidence.findings);
    findings := Enrich(e.context, findings);
    var decision := Apply(e.policy, run.covers, e.today, findings);
    if decision.Err? {
      return FailedCertificate();
    }
    var d := decision.value;

    var enumerated := run.enumerated;
    if |enumerated| == 0 {
      enumerated := files;
    }
    var outcome, unsupported := DetermineOutcome(run.site, files, enumerated);

    var scored := Score(ScoreInput(d.all, evidence.down, evidence.failures, outcome, unsupported));
    var effective := scored.grade;
    if |d.waived| > 0 {
      var rest := Score(ScoreInput(d.findings, evidence.down, evidence.failures, outcome, unsupported));
      effective := rest.grade;
    }
    var coverage := Full;
    if |unsupported| > 0 {
      coverage := Partial;
    }
    var ignoredCandidates := CountIgnored(CandidateAt(run.site), ignored);
    var plan := Undo.BuildUndoPlan(d.all);
    cert := Certificate(scored.grade, effective, scored.grade.Gate(coverage, ignoredCandidates),
                        outcome, coverage, Unanalyzed(run.site, unsupported), ignored,
                        d.findings, d.waived, plan, scored.blockers, scored.causes, d.deadWaivers, evidence.down);
  }
}
