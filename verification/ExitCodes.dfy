/** What the exit code of a run says about the run itself. */
module ExitCodes {
  import opened Domain
  import opened Dominance
  import opened Scorer
  import opened ScoreProperties
  import opened Snapshot
  import opened Policy
  import opened CoverageCheck
  import opened Certify
  import opened CliGate
  import opened Paths
  import opened Text
  import opened Pipeline

  lemma ExitOfDecision(
    shape: Shape, evidence: Evidence, decision: Result<Decision, PolicyError>, minGrade: Grade,
    claimed: bool, whole: bool, counting: seq<Finding>)
    requires shape.outcome == if claimed then Analyzed else if whole then NoCandidates else UnsupportedContent
    requires whole <==> shape.unsupported == []
    requires decision.Ok? ==> Coherent(decision.value) && decision.value.findings == counting
    ensures var exit := ApplyGate(CertificateFor(shape, evidence, decision), minGrade);
      && (exit.NotAssessed? <==> decision.Ok? && !claimed && !whole)
      && (exit.IncompleteCoverage? <==> decision.Ok? && claimed && !whole)
      && (exit.GateFailed? <==>
            if decision.Err? then minGrade.Rank() > 0
            else claimed && whole && GradeOf(ScoreOver(shape, evidence, counting)).Rank() < minGrade.Rank())
    ensures claimed ==>
              CertificateFor(shape, evidence, decision).effective ==
              (if decision.Err? then GradeF else GradeOf(ScoreOver(shape, evidence, counting)))
    ensures claimed ==> CertificateFor(shape, evidence, decision).effective.Rank() >= 0
    ensures claimed && evidence.failures != [] ==> CertificateFor(shape, evidence, decision).effective == GradeF
  {
    GradeIsSet(ScoreOver(shape, evidence, counting));
    if decision.Ok? {
      EffectiveScoresTheRest(shape, evidence, decision.value);
    }
  }

  /**
   Which exit a run ends in, from what it read and found. With its overrides accepted: not assessed
   when nothing was claimed and something should have been, incomplete when some was claimed and not
   all, and otherwise failed exactly when a claimed, complete run's remaining findings grade below
   the threshold. With an override rejected: failed exactly under a threshold above F.
   */
  lemma ExitOfRun(e: Engine, run: RunConfig, files: seq<string>, evidence: Evidence, minGrade: Grade)
    ensures var exit := ApplyGate(Certified(e, run, files, evidence), minGrade);
            var accepted := Accepted(e, evidence.findings);
            var claimed, whole := AnyClaimed(run.site, files), Whole(run, files);
      && (exit.NotAssessed? <==> accepted && !claimed && !whole)
      && (exit.IncompleteCoverage? <==> accepted && claimed && !whole)
      && (exit.GateFailed? <==>
            if !accepted then minGrade.Rank() > 0
            else claimed && whole && CountingGrade(e, run, files, evidence).Rank() < minGrade.Rank())
    ensures AnyClaimed(run.site, files) ==>
      && Certified(e, run, files, evidence).effective == CountingGrade(e, run, files, evidence)
      && CountingGrade(e, run, files, evidence).Rank() >= 0
      && (evidence.failures != [] ==> CountingGrade(e, run, files, evidence) == GradeF)
  {
    DecisionByFinding(e, run, evidence.findings);
    OutcomeByPaths(run, files);
    ExitOfDecision(ShapeOf(run, files), evidence, DecisionFor(e, run, evidence.findings), minGrade,
                   AnyClaimed(run.site, files), Whole(run, files), Counting(e, run, evidence.findings));
  }

  /** An open merge gate is a successful exit, whatever the threshold. */
  lemma OpenGateMeetsEveryThreshold(
    e: Engine, run: RunConfig, files: seq<string>, evidence: Evidence, minGrade: Grade)
    requires Certified(e, run, files, evidence).gate.GatePass?
    ensures ApplyGate(Certified(e, run, files, evidence), minGrade).Success?
  {
    var decision := DecisionFor(e, run, evidence.findings);
    DecisionByFinding(e, run, evidence.findings);
    OpenGateSucceeds(ShapeOf(run, files), evidence, decision, Remains(e, run), minGrade);
  }

  lemma OpenGateSucceeds(
    shape: Shape, evidence: Evidence, decision: Result<Decision, PolicyError>, remains: Finding -> bool, minGrade: Grade)
    requires decision.Ok? ==> Coherent(decision.value) && decision.value.findings == Filter(remains, decision.value.all)
    requires CertificateFor(shape, evidence, decision).gate.GatePass?
    ensures ApplyGate(CertificateFor(shape, evidence, decision), minGrade).Success?
  {
    GateOfCertificate(shape, evidence, decision);
    RestOfHarmlessIsA(shape, evidence, decision.value.all, remains);
    EffectiveScoresTheRest(shape, evidence, decision.value);
    WholeAndBest(CertificateFor(shape, evidence, decision), minGrade);
  }

  lemma WholeAndBest(cert: Certificate, minGrade: Grade)
    requires cert.outcome.Analyzed? && cert.coverage.Full? && cert.effective == GradeA
    ensures ApplyGate(cert, minGrade).Success?
  {
  }

  lemma RestOfHarmlessIsA(shape: Shape, evidence: Evidence, all: seq<Finding>, remains: Finding -> bool)
    requires evidence.failures == [] && shape.outcome.Analyzed? && shape.unsupported == []
    requires forall s | s in evidence.down :: s.exists_ && s.parses
    requires forall f | f in all :: Harmless(f)
    ensures GradeOf(ScoreOver(shape, evidence, Filter(remains, all))) == GradeA
  {
    forall f | f in Filter(remains, all) ensures Harmless(f) {
      FilterMember(remains, all, f);
    }
    GatePassesExactly(ScoreOver(shape, evidence, Filter(remains, all)), 0);
  }

  /** No run fails a threshold of F: whatever is graded at all is graded at least F. */
  lemma ThresholdFGatesNoRun(e: Engine, run: RunConfig, files: seq<string>, evidence: Evidence, minGrade: Grade)
    requires minGrade.Rank() <= 0
    ensures !ApplyGate(Certified(e, run, files, evidence), minGrade).GateFailed?
  {
    ExitOfRun(e, run, files, evidence, minGrade);
  }

  /** Every threshold above F is one a run can fail: a completely read run with a failed analyzer does. */
  lemma ThresholdAboveFGates(e: Engine, run: RunConfig, files: seq<string>, evidence: Evidence, minGrade: Grade)
    requires AnyClaimed(run.site, files) && Whole(run, files) && evidence.failures != []
    ensures ApplyGate(Certified(e, run, files, evidence), minGrade).GateFailed? <==> minGrade.Rank() > 0
  {
    DecisionIsCoherent(e, run, evidence.findings);
    OutcomeByPaths(run, files);
    FailureExits(ShapeOf(run, files), evidence, DecisionFor(e, run, evidence.findings), minGrade);
  }

  lemma FailureExits(shape: Shape, evidence: Evidence, decision: Result<Decision, PolicyError>, minGrade: Grade)
    requires shape.outcome.Analyzed? && shape.unsupported == [] && evidence.failures != []
    requires decision.Ok? ==> Coherent(decision.value)
    ensures ApplyGate(CertificateFor(shape, evidence, decision), minGrade).GateFailed? <==> minGrade.Rank() > 0
  {
    if decision.Ok? {
      EffectiveScoresTheRest(shape, evidence, decision.value);
    }
  }

  // ---------------------------------------------------------------- thresholds that gate no run

  /** Asking for this grade comes to asking for none, on every run. */
  ghost predicate GatesNoRun(minGrade: Grade) {
    forall e, run, files, evidence ::
      ApplyGate(Certified(e, run, files, evidence), minGrade) ==
      ApplyGate(Certified(e, run, files, evidence), NO_THRESHOLD)
  }

  /** Two thresholds that fail no run end it alike. */
  lemma SameExitBelowF(e: Engine, run: RunConfig, files: seq<string>, evidence: Evidence, minGrade: Grade)
    requires minGrade.Rank() <= 0
    ensures ApplyGate(Certified(e, run, files, evidence), minGrade) ==
            ApplyGate(Certified(e, run, files, evidence), NO_THRESHOLD)
  {
    ThresholdFGatesNoRun(e, run, files, evidence, minGrade);
    SameUnlessFailed(Certified(e, run, files, evidence), minGrade);
  }

  lemma SameUnlessFailed(cert: Certificate, minGrade: Grade)
    requires !ApplyGate(cert, minGrade).GateFailed?
    ensures ApplyGate(cert, minGrade) == ApplyGate(cert, NO_THRESHOLD)
  {
  }

  /** A threshold gates no run exactly when it does not rank above F. */
  lemma GatesNoRunExactly(minGrade: Grade)
    ensures GatesNoRun(minGrade) <==> minGrade.Rank() <= 0
  {
    if minGrade.Rank() <= 0 {
      forall e, run, files, evidence
        ensures ApplyGate(Certified(e, run, files, evidence), minGrade) ==
                ApplyGate(Certified(e, run, files, evidence), NO_THRESHOLD)
      {
        SameExitBelowF(e, run, files, evidence, minGrade);
      }
    } else {
      var e, run, files, evidence := FailedRun();
      ThresholdAboveFGates(e, run, files, evidence, minGrade);
      ThresholdFGatesNoRun(e, run, files, evidence, NO_THRESHOLD);
    }
  }

  /** A complete run with a failed analyzer. */
  lemma FailedRun() returns (e: Engine, run: RunConfig, files: seq<string>, evidence: Evidence)
    ensures AnyClaimed(run.site, files) && Whole(run, files) && evidence.failures != []
  {
    e, files, evidence := Engine(None, 0, None), ["a.sql"], Evidence([], [], ["timed out"]);
    run := OneFileRead().(enumerated := files);
    assert files[0] == "a.sql" && run.site.supports(run.site.locate("a.sql"));
  }

  /** A run whose exit the threshold decides: read completely, or an override rejected. */
  ghost predicate Decided(e: Engine, run: RunConfig, files: seq<string>, evidence: Evidence) {
    AnyClaimed(run.site, files) && (Accepted(e, evidence.findings) ==> Whole(run, files))
  }

  lemma DecidedByRank(e: Engine, run: RunConfig, files: seq<string>, evidence: Evidence, minGrade: Grade)
    requires Decided(e, run, files, evidence)
    ensures var cert := Certified(e, run, files, evidence);
      && cert.effective.Rank() >= 0
      && (ApplyGate(cert, minGrade).GateFailed? <==> cert.effective.Rank() < minGrade.Rank())
      && (ApplyGate(cert, minGrade).Success? <==> !(cert.effective.Rank() < minGrade.Rank()))
  {
    DecisionByFinding(e, run, evidence.findings);
    OutcomeByPaths(run, files);
    DecidedExit(ShapeOf(run, files), evidence, DecisionFor(e, run, evidence.findings), minGrade);
  }

  lemma DecidedExit(shape: Shape, evidence: Evidence, decision: Result<Decision, PolicyError>, minGrade: Grade)
    requires shape.outcome.Analyzed?
    requires decision.Ok? ==> Coherent(decision.value) && shape.unsupported == []
    ensures var cert := CertificateFor(shape, evidence, decision);
      && cert.effective.Rank() >= 0
      && (ApplyGate(cert, minGrade).GateFailed? <==> cert.effective.Rank() < minGrade.Rank())
      && (ApplyGate(cert, minGrade).Success? <==> !(cert.effective.Rank() < minGrade.Rank()))
  {
    if decision.Ok? {
      EffectiveScoresTheRest(shape, evidence, decision.value);
      GradeIsSet(ScoreOver(shape, evidence, decision.value.findings));
    }
  }

  /**
   What a typed grade asks for: only A, B, C and F may be typed, and then the exit fails exactly when
   the effective grade is not among those from A down to that letter, whatever else is configured.
   */
  lemma TypedGradeMeans(
    e: Engine, run: RunConfig, files: seq<string>, evidence: Evidence,
    typed: string, gate: bool, policy: Option<PolicyFile>)
    requires Decided(e, run, files, evidence) && typed != ""
    ensures var cert, minGrade := Certified(e, run, files, evidence), ResolveMinGrade(typed, gate, policy);
      && (minGrade.Ok? <==> ToUpper(typed) in {"A", "B", "C", "F"})
      && (minGrade.Ok? ==> (ApplyGate(cert, minGrade.value).GateFailed? <==> !Meets(cert.effective, ToUpper(typed))))
  {
    AcceptedNames(typed, gate, policy);
    var minGrade := ResolveMinGrade(typed, gate, policy);
    if minGrade.Ok? {
      DecidedByRank(e, run, files, evidence, minGrade.value);
      LetterRanks(Certified(e, run, files, evidence).effective, ToUpper(typed));
    }
  }

  /** Untyped, `--gate` asks for an A whatever the policy says; nothing asked for, nothing fails. */
  lemma GateFlagMeans(
    e: Engine, run: RunConfig, files: seq<string>, evidence: Evidence, policy: Option<PolicyFile>)
    requires Decided(e, run, files, evidence)
    ensures var cert, flagged, unasked :=
              Certified(e, run, files, evidence), ResolveMinGrade("", true, policy), ResolveMinGrade("", false, None);
      && flagged.Ok? && (ApplyGate(cert, flagged.value).GateFailed? <==> !cert.effective.GradeA?)
      && unasked.Ok? && ApplyGate(cert, unasked.value).Success?
  {
    Untyped(policy);
    DecidedByRank(e, run, files, evidence, GradeA);
    DecidedByRank(e, run, files, evidence, NO_THRESHOLD);
    OnlyAMeetsA(Certified(e, run, files, evidence).effective);
  }

  /** With neither, the policy's gate decides, if it has one. */
  lemma PolicyGateMeans(
    e: Engine, run: RunConfig, files: seq<string>, evidence: Evidence, text: string, policy: PolicyFile)
    requires Decided(e, run, files, evidence)
    requires text != "" && LoadGate(text) == Ok(policy.gate)
    ensures var cert, minGrade := Certified(e, run, files, evidence), ResolveMinGrade("", false, Some(policy));
      && ToUpper(Trim(text)) in {"A", "B", "C", "F", "N/A"}
      && minGrade.Ok? && (ApplyGate(cert, minGrade.value).GateFailed? <==> !Meets(cert.effective, ToUpper(Trim(text))))
  {
    AcceptedNames(text, false, None);
    LoadedRank(text, policy);
    DecidedByRank(e, run, files, evidence, policy.gate);
    LetterRanks(Certified(e, run, files, evidence).effective, ToUpper(Trim(text)));
  }

  /** A gate written in a policy file is accepted and then gates no run exactly when it spells N/A or F. */
  lemma LoadedGateGatesNoRunExactly(text: string, policy: PolicyFile)
    requires text != "" && LoadGate(text) == Ok(policy.gate)
    ensures ResolveMinGrade("", false, Some(policy)) == Ok(policy.gate)
    ensures GatesNoRun(policy.gate) <==> ToUpper(Trim(text)) == "N/A" || ToUpper(Trim(text)) == "F"
  {
    LoadedRank(text, policy);
    GatesNoRunExactly(policy.gate);
  }

  /** A grade typed on the command line gates no run exactly when it spells F. */
  lemma TypedGradeGatesNoRunExactly(typed: string, gate: bool, policy: Option<PolicyFile>)
    requires typed != "" && ResolveMinGrade(typed, gate, policy).Ok?
    ensures GatesNoRun(ResolveMinGrade(typed, gate, policy).value) <==> ToUpper(typed) == "F"
  {
    TypedRank(typed, gate, policy);
    GatesNoRunExactly(ResolveMinGrade(typed, gate, policy).value);
  }

  // ---------------------------------------------------------------- context and the exit code

  /** The overrides are accepted for the findings as the analyzers report them. */
  predicate AcceptedAsFound(policy: Option<PolicyFile>, findings: seq<Finding>) {
    forall f | f in findings :: Escalates(f.reversibility, Named(OverridesOf(policy), f.ruleID))
  }

  /** The first override naming PG017 is milder than WILL_FAIL, so it loosens a statement known to fail. */
  predicate LoosensWillFail(policy: Option<PolicyFile>) {
    var named := Named(OverridesOf(policy), "PG017");
    named != [] && named[0].severity.Severity() < WillFail.Severity()
  }

  /** The snapshot shows this SET NOT NULL to fail, and nothing said so before. */
  predicate ShownToFail(s: SnapshotSet, f: Finding) {
    f.ruleID == "PG017" && f.reversibility.Severity() < WillFail.Severity() && HasNulls(s, f)
  }

  /** Accepted without the snapshot, rejected with it. */
  predicate NewlyRejected(policy: Option<PolicyFile>, s: SnapshotSet, findings: seq<Finding>) {
    AcceptedAsFound(policy, findings) && LoosensWillFail(policy) && exists f | f in findings :: ShownToFail(s, f)
  }

  lemma FateAsFound(e: Engine, f: Finding)
    requires e.context.None?
    ensures Fate(e, f).Ok? <==> Escalates(f.reversibility, Named(OverridesOf(e.policy), f.ruleID))
  {
    TightenedMeaning(OverridesOf(e.policy), f);
  }

  lemma FateInContext(e: Engine, s: SnapshotSet, f: Finding)
    requires e.context.None? && f.context.None? && Fate(e, f).Ok?
    ensures Fate(e.(context := Some(s)), f).Err? <==> ShownToFail(s, f) && LoosensWillFail(e.policy)
  {
    var overrides, g := OverridesOf(e.policy), Enriched(s, f);
    EnrichedIsRatchet(s, f);
    TightenedMeaning(overrides, f);
    TightenedMeaning(overrides, g);
  }

  /** A snapshot gets an accepted policy rejected exactly when it shows such a failure and the policy loosens it. */
  lemma NewRejectionExactly(e: Engine, s: SnapshotSet, findings: seq<Finding>)
    requires e.context.None? && forall f | f in findings :: f.context.None?
    ensures Accepted(e, findings) && !Accepted(e.(context := Some(s)), findings) <==>
            NewlyRejected(e.policy, s, findings)
  {
    forall f | f in findings
      ensures Fate(e, f).Ok? <==> Escalates(f.reversibility, Named(OverridesOf(e.policy), f.ruleID))
      ensures Fate(e, f).Ok? ==>
                (Fate(e.(context := Some(s)), f).Err? <==> ShownToFail(s, f) && LoosensWillFail(e.policy))
    {
      FateAsFound(e, f);
      if Fate(e, f).Ok? {
        FateInContext(e, s, f);
      }
    }
  }

  /** The snapshot turns a failing exit into a successful one. */
  ghost predicate OpensExit(
    e: Engine, s: SnapshotSet, run: RunConfig, files: seq<string>, evidence: Evidence, minGrade: Grade)
  {
    && !ApplyGate(Certified(e, run, files, evidence), minGrade).Success?
    && ApplyGate(Certified(e.(context := Some(s)), run, files, evidence), minGrade).Success?
  }

  /**
   Context never turns a failing exit into a successful one, with exactly one way out. A rejected
   override produces the certificate of a failed run, which claims that everything was read. So it
   happens, whether any of it was claimed or none, when not every path was vouched for, no threshold
   above F is in force, and the snapshot shows a SET NOT NULL to fail whose rule an override,
   accepted without it, calls something milder.
   */
  lemma ContextAndExitCode(
    e: Engine, s: SnapshotSet, run: RunConfig, files: seq<string>, evidence: Evidence, minGrade: Grade)
    requires e.context.None? && forall f | f in evidence.findings :: f.context.None?
    ensures OpensExit(e, s, run, files, evidence, minGrade) <==>
            minGrade.Rank() <= 0 && !Whole(run, files) && NewlyRejected(e.policy, s, evidence.findings)
  {
    var e' := e.(context := Some(s));
    NewRejectionExactly(e, s, evidence.findings);
    ExitOfRun(e, run, files, evidence, minGrade);
    ExitOfRun(e', run, files, evidence, minGrade);
    if AnyClaimed(run.site, files) {
      ContextNeverHelps(e, s, run, files, evidence);
    }
    ContextKeepsAcceptance(e, s, run, files, evidence);
  }

  lemma ContextKeepsAcceptance(e: Engine, s: SnapshotSet, run: RunConfig, files: seq<string>, evidence: Evidence)
    requires e.context.None? && forall f | f in evidence.findings :: f.context.None?
    ensures Accepted(e.(context := Some(s)), evidence.findings) ==> Accepted(e, evidence.findings)
  {
    ContextKeepsDecision(e, s, run, evidence.findings);
    DecisionByFinding(e, run, evidence.findings);
    DecisionByFinding(e.(context := Some(s)), run, evidence.findings);
  }

  /** A site that reads one file, where every path is a candidate. */
  function OneFileRead(): RunConfig {
    RunConfig(Site((p: string) => [p], (at: Located) => at == ["a.sql"], (at: Located) => false, (at: Located) => true),
              (pattern: string, file: string) => true, ["a.sql", "b.sql"], [])
  }

  function MadeIrreversible(rule: string): Option<PolicyFile> {
    Some(PolicyFile(NO_THRESHOLD, [], [], [Override(rule, Irreversible)]))
  }

  lemma OneFileReadIsPartial()
    ensures AnyClaimed(OneFileRead().site, ["a.sql"]) && !Whole(OneFileRead(), ["a.sql"])
  {
    var run, files := OneFileRead(), ["a.sql"];
    assert files[0] == "a.sql" && run.site.supports(run.site.locate("a.sql"));
    var enumerated := EnumeratedPaths(run, files);
    assert enumerated == ["a.sql", "b.sql"] && enumerated[1] == "b.sql" && "b.sql" in enumerated;
    assert "b.sql"[0] != "a.sql"[0];
    assert !Vouched(run.site, files, enumerated, "b.sql");
  }

  lemma OnlyOverride(o: Override)
    ensures Named([o], o.rule) == [o]
    ensures forall from: Reversibility :: Escalates(from, [o]) <==> from.Severity() <= o.severity.Severity()
  {
    assert [o][1..] == [];
  }

  lemma RelabelledNotNull(s: SnapshotSet, f: Finding)
    requires f.ruleID == "PG017" && f.reversibility.Costly? && HasNulls(s, f)
    ensures NewlyRejected(MadeIrreversible("PG017"), s, [f])
  {
    IrreversibleNamed("PG017");
    assert [f][0] == f && ShownToFail(s, f);
  }

  lemma IrreversibleNamed(rule: string)
    ensures Named(OverridesOf(MadeIrreversible(rule)), rule) == [Override(rule, Irreversible)]
    ensures Escalates(Costly, [Override(rule, Irreversible)])
  {
    OnlyOverride(Override(rule, Irreversible));
  }

  /**
   That way out is real, under every threshold not above F: one file read and another not, a SET NOT
   NULL, an override of PG017 to IRREVERSIBLE, and a snapshot with nulls.
   */
  lemma ContextOpensExit(minGrade: Grade)
    requires minGrade.Rank() <= 0
    ensures exists e, s, run, files, evidence :: OpensExit(e, s, run, files, evidence, minGrade)
  {
    var e, s, run, files, evidence := PartialRun();
    ContextAndExitCode(e, s, run, files, evidence, minGrade);
  }

  lemma PartialRun()
    returns (e: Engine, s: SnapshotSet, run: RunConfig, files: seq<string>, evidence: Evidence)
    ensures e.context.None? && forall f | f in evidence.findings :: f.context.None?
    ensures AnyClaimed(run.site, files) && !Whole(run, files)
    ensures NewlyRejected(e.policy, s, evidence.findings)
  {
    var f;
    s, f := NullsBehindNotNull("a.sql");
    RelabelledNotNull(s, f);
    OneFileReadIsPartial();
    e, evidence := Engine(MadeIrreversible("PG017"), 0, None), Evidence([f], [], []);
    run, files := OneFileRead(), ["a.sql"];
    assert evidence.findings[0] == f;
  }
}
