/**
 The promises about the certificate that compare two runs: with and without production context,
 with more findings, with other waivers, on another day.
 */
module Pipeline {
  import opened Domain
  import opened Dominance
  import opened Scorer
  import opened ScoreProperties
  import opened Snapshot
  import opened Policy
  import opened CoverageCheck
  import opened Certify
  import Sorting
  import Text
  import Undo

  /**
   `g` is `f` with no better a ceiling and, at most, its verdict raised to WILL_FAIL: worse for
   scoring, and never newly coverable by a waiver.
   */
  predicate Ratcheted(f: Finding, g: Finding) {
    && f.ruleID == g.ruleID && f.file == g.file && f.lock == g.lock
    && (f.reversibility == g.reversibility || (g.reversibility.WillFail? && f.reversibility.Severity() <= 4))
    && CeilingRank(g) <= CeilingRank(f)
  }

  // ---------------------------------------------------------------- through the policy

  lemma {:induction false} EscalationStartsLower(low: Reversibility, high: Reversibility, overrides: seq<Override>)
    requires low.Severity() <= high.Severity() && Escalates(high, overrides)
    ensures Escalates(low, overrides)
  {
  }

  function TightenedOr(overrides: seq<Override>): Finding -> Finding {
    (f: Finding) => match Tightened(overrides, f) case Ok(g) => g case Err(_) => f
  }

  lemma TightenedRatchets(overrides: seq<Override>, f: Finding, g: Finding)
    requires Ratcheted(f, g) && Tightened(overrides, g).Ok?
    ensures Tightened(overrides, f).Ok?
    ensures Ratcheted(Tightened(overrides, f).value, Tightened(overrides, g).value)
  {
    TightenedMeaning(overrides, f);
    TightenedMeaning(overrides, g);
    EscalationStartsLower(f.reversibility, g.reversibility, Named(overrides, f.ruleID));
  }

  lemma {:induction false} TightenedAllIsMap(overrides: seq<Override>, findings: seq<Finding>)
    ensures TightenedAll(overrides, findings).Ok? <==> forall f | f in findings :: Tightened(overrides, f).Ok?
    ensures TightenedAll(overrides, findings).Ok? ==>
            TightenedAll(overrides, findings).value == Map(TightenedOr(overrides), findings)
  {
    if findings != [] {
      TightenedAllIsMap(overrides, findings[1..]);
      assert findings == [findings[0]] + findings[1..];
      assert findings[0] in findings;
      assert forall f | f in findings :: f == findings[0] || f in findings[1..];
    }
  }

  lemma TightenedAllRatchets(overrides: seq<Override>, xs: seq<Finding>, ys: seq<Finding>)
    requires Dominated(Ratcheted, xs, ys) && TightenedAll(overrides, ys).Ok?
    ensures TightenedAll(overrides, xs).Ok?
    ensures Dominated(Ratcheted, TightenedAll(overrides, xs).value, TightenedAll(overrides, ys).value)
  {
    TightenedAllIsMap(overrides, xs);
    TightenedAllIsMap(overrides, ys);
    forall x | x in xs ensures Tightened(overrides, x).Ok? {
      DominatedExists(Ratcheted, xs, ys, x);
      var y :| y in ys && Ratcheted(x, y);
      TightenedRatchets(overrides, x, y);
    }
    var t := TightenedOr(overrides);
    forall x, y | x in xs && y in ys && Ratcheted(x, y) ensures Ratcheted(t(x), t(y)) {
      TightenedRatchets(overrides, x, y);
    }
    DominatedMap(Ratcheted, Ratcheted, t, t, xs, ys);
  }

  lemma {:induction false} SameMatch(covers: Covers, today: int, waivers: seq<Waiver>, f: Finding, g: Finding)
    requires f.ruleID == g.ruleID && f.file == g.file
    ensures FirstLive(covers, today, waivers, f) == FirstLive(covers, today, waivers, g)
  {
    if waivers != [] {
      SameMatch(covers, today, waivers[..|waivers| - 1], f, g);
    }
  }

  /** A better decision: accepted whenever the other is, with less in it to score. */
  ghost predicate NoWorse(a: Result<Decision, PolicyError>, b: Result<Decision, PolicyError>) {
    b.Ok? ==>
      a.Ok? && Dominated(Worse, a.value.all, b.value.all) && Dominated(Worse, a.value.findings, b.value.findings)
  }

  lemma RatchetedIsWorse(xs: seq<Finding>, ys: seq<Finding>)
    requires Dominated(Ratcheted, xs, ys)
    ensures Dominated(Worse, xs, ys)
  {
    DominatedWeaken(Ratcheted, Worse, xs, ys);
  }

  lemma PolicyKeepsRatchet(
    policy: Option<PolicyFile>, covers: Covers, today: int, xs: seq<Finding>, ys: seq<Finding>)
    requires Dominated(Ratcheted, xs, ys)
    ensures NoWorse(Applied(policy, covers, today, xs), Applied(policy, covers, today, ys))
  {
    if policy.None? {
      RatchetedIsWorse(xs, ys);
    } else if TightenedAll(policy.value.overrides, ys).Ok? {
      TightenedAllRatchets(policy.value.overrides, xs, ys);
      var tx, ty := TightenedAll(policy.value.overrides, xs).value, TightenedAll(policy.value.overrides, ys).value;
      RatchetedIsWorse(tx, ty);
      var counts := Counts(covers, today, policy.value.waivers);
      forall x, y | x in tx && y in ty && Ratcheted(x, y) && counts(x) ensures counts(y) {
        SameMatch(covers, today, policy.value.waivers, x, y);
      }
      DominatedFilter(Ratcheted, counts, counts, tx, ty);
      RatchetedIsWorse(Filter(counts, tx), Filter(counts, ty));
    }
  }

  // ---------------------------------------------------------------- the effective grade

  /** With nothing waived, what counts is everything. */
  predicate Coherent(d: Decision) { |d.waived| == 0 ==> d.findings == d.all }

  lemma AppliedIsCoherent(policy: Option<PolicyFile>, covers: Covers, today: int, findings: seq<Finding>)
    requires Applied(policy, covers, today, findings).Ok?
    ensures Coherent(Applied(policy, covers, today, findings).value)
  {
    if policy.Some? {
      var all := TightenedAll(policy.value.overrides, findings).value;
      FilterEmpty(IsWaived(covers, today, policy.value.waivers), all);
      if Filter(IsWaived(covers, today, policy.value.waivers), all) == [] {
        FilterAll(Counts(covers, today, policy.value.waivers), all);
      }
    }
  }

  lemma DecisionIsCoherent(e: Engine, run: RunConfig, findings: seq<Finding>)
    ensures DecisionFor(e, run, findings).Ok? ==> Coherent(DecisionFor(e, run, findings).value)
  {
    var enriched := EnrichAll(e.context, Sorting.Sort(FindingLe, findings));
    if Applied(e.policy, run.covers, e.today, enriched).Ok? {
      AppliedIsCoherent(e.policy, run.covers, e.today, enriched);
    }
  }

  /** Whether or not the second scoring run happens, the effective grade is the grade of what still counts. */
  lemma EffectiveScoresTheRest(shape: Shape, evidence: Evidence, d: Decision)
    requires Coherent(d)
    ensures CertificateFor(shape, evidence, Ok(d)).effective == GradeOf(ScoreOver(shape, evidence, d.findings))
  {
  }

  // ---------------------------------------------------------------- what becomes of one finding

  function EnrichOne(context: Option<SnapshotSet>, f: Finding): Finding {
    match context case None => f case Some(s) => Enriched(s, f)
  }

  /** A finding after context and overrides, or the override that is rejected for it. */
  function Fate(e: Engine, f: Finding): Result<Finding, PolicyError> {
    Tightened(OverridesOf(e.policy), EnrichOne(e.context, f))
  }

  function Resolved(e: Engine): Finding -> Finding {
    (f: Finding) => match Fate(e, f) case Ok(g) => g case Err(_) => f
  }

  /** Whether a resolved finding still counts towards the effective grade. */
  function Remains(e: Engine, run: RunConfig): Finding -> bool {
    Counts(run.covers, e.today, WaiversOf(e.policy))
  }

  lemma EnrichedHead(context: Option<SnapshotSet>, xs: seq<Finding>)
    requires xs != []
    ensures EnrichAll(context, xs) != []
    ensures EnrichAll(context, xs)[0] == EnrichOne(context, xs[0])
    ensures EnrichAll(context, xs)[1..] == EnrichAll(context, xs[1..])
  {
  }

  lemma {:induction false} TightenedByFinding(e: Engine, xs: seq<Finding>)
    ensures var r := TightenedAll(OverridesOf(e.policy), EnrichAll(e.context, xs));
      && (r.Ok? <==> forall x | x in xs :: Fate(e, x).Ok?)
      && (r.Ok? ==> r.value == Map(Resolved(e), xs))
  {
    if xs != [] {
      EnrichedHead(e.context, xs);
      TightenedByFinding(e, xs[1..]);
      assert xs == [xs[0]] + xs[1..];
      assert xs[0] in xs;
      assert forall x | x in xs :: x == xs[0] || x in xs[1..];
    }
  }

  lemma SortedMembers(findings: seq<Finding>)
    ensures forall f :: f in Sorting.Sort(FindingLe, findings) <==> f in findings
  {
    forall f ensures f in Sorting.Sort(FindingLe, findings) <==> f in findings {
      assert f in multiset(Sorting.Sort(FindingLe, findings)) <==> f in multiset(findings);
    }
  }

  lemma AppliedByOverrides(policy: Option<PolicyFile>, covers: Covers, today: int, xs: seq<Finding>)
    ensures Applied(policy, covers, today, xs).Ok? <==> TightenedAll(OverridesOf(policy), xs).Ok?
    ensures Applied(policy, covers, today, xs).Ok? ==>
      && Applied(policy, covers, today, xs).value.all == TightenedAll(OverridesOf(policy), xs).value
      && Applied(policy, covers, today, xs).value.findings ==
         Filter(Counts(covers, today, WaiversOf(policy)), TightenedAll(OverridesOf(policy), xs).value)
  {
    if policy.None? {
      NoOverrides(xs);
      FilterAll(Counts(covers, today, []), xs);
    }
  }

  /**
   A decision, finding by finding: it is accepted when each finding's overrides are, it resolves
   each on its own, and what counts is what no live waiver covers.
   */
  lemma DecisionByFinding(e: Engine, run: RunConfig, findings: seq<Finding>)
    ensures var decision := DecisionFor(e, run, findings);
            var all := Map(Resolved(e), Sorting.Sort(FindingLe, findings));
      && (decision.Ok? <==> forall f | f in findings :: Fate(e, f).Ok?)
      && (decision.Ok? ==>
            && decision.value.all == all
            && decision.value.findings == Filter(Remains(e, run), all)
            && Coherent(decision.value))
  {
    var sorted := Sorting.Sort(FindingLe, findings);
    SortedMembers(findings);
    TightenedByFinding(e, sorted);
    AppliedByOverrides(e.policy, run.covers, e.today, EnrichAll(e.context, sorted));
    DecisionIsCoherent(e, run, findings);
  }

  /** No override is rejected for any of the findings. */
  predicate Accepted(e: Engine, findings: seq<Finding>) { forall f | f in findings :: Fate(e, f).Ok? }

  /** What still counts once context, overrides and waivers have had their say. */
  function Counting(e: Engine, run: RunConfig, findings: seq<Finding>): seq<Finding> {
    Filter(Remains(e, run), Map(Resolved(e), Sorting.Sort(FindingLe, findings)))
  }

  /** Every existing path that had to be was read and claimed. */
  ghost predicate Whole(run: RunConfig, files: seq<string>) {
    forall p | p in EnumeratedPaths(run, files) :: Vouched(run.site, files, EnumeratedPaths(run, files), p)
  }

  lemma OutcomeByPaths(run: RunConfig, files: seq<string>)
    ensures ShapeOf(run, files).outcome ==
            if AnyClaimed(run.site, files) then Analyzed
            else if Whole(run, files) then NoCandidates else UnsupportedContent
    ensures Whole(run, files) <==> ShapeOf(run, files).unsupported == []
  {
    CoverageFailsClosed(run.site, files, EnumeratedPaths(run, files));
  }

  /** The grade of what still counts; F when an override is rejected. */
  ghost function CountingGrade(e: Engine, run: RunConfig, files: seq<string>, evidence: Evidence): Grade {
    if Accepted(e, evidence.findings)
    then GradeOf(ScoreOver(ShapeOf(run, files), evidence, Counting(e, run, evidence.findings)))
    else GradeF
  }

  /** Whether or not anything is waived, the effective grade is the grade of what still counts. */
  lemma EffectiveOfRun(e: Engine, run: RunConfig, files: seq<string>, evidence: Evidence)
    ensures Certified(e, run, files, evidence).effective == CountingGrade(e, run, files, evidence)
  {
    DecisionByFinding(e, run, evidence.findings);
    var decision := DecisionFor(e, run, evidence.findings);
    if decision.Ok? {
      EffectiveScoresTheRest(ShapeOf(run, files), evidence, decision.value);
    }
  }

  /** The grade is that of every finding, waived or not. */
  lemma GradeOfRun(e: Engine, run: RunConfig, files: seq<string>, evidence: Evidence)
    ensures var cert, shape := Certified(e, run, files, evidence), ShapeOf(run, files);
            var all := Map(Resolved(e), Sorting.Sort(FindingLe, evidence.findings));
      if Accepted(e, evidence.findings) then
        && cert.grade == GradeOf(ScoreOver(shape, evidence, all))
        && cert.gate == cert.grade.Gate(cert.coverage, shape.ignoredCandidates)
        && cert.outcome == shape.outcome && cert.coverage == shape.Coverage()
      else cert == FailedCertificate()
  {
    DecisionByFinding(e, run, evidence.findings);
  }

  /** Worse evidence: neither grade rises and the gate does not open. */
  predicate NeverHelps(better: Certificate, worse: Certificate) {
    && worse.grade.Rank() <= better.grade.Rank()
    && worse.effective.Rank() <= better.effective.Rank()
    && (worse.gate.GatePass? ==> better.gate.GatePass?)
  }

  lemma DecisionsOrderCertificates(
    shape: Shape, evidence: Evidence, evidence': Evidence,
    a: Result<Decision, PolicyError>, b: Result<Decision, PolicyError>)
    requires shape.outcome.Analyzed? && NoWorse(a, b)
    requires a.Ok? ==> Coherent(a.value)
    requires b.Ok? ==> Coherent(b.value)
    requires evidence.failures != [] ==> evidence'.failures != []
    requires AllSound(evidence'.down) ==> AllSound(evidence.down)
    ensures NeverHelps(CertificateFor(shape, evidence, a), CertificateFor(shape, evidence', b))
  {
    match b {
      case Ok(worse) => AcceptedDecisionsOrder(shape, evidence, evidence', a.value, worse);
      case Err(_) =>
        if a.Ok? {
          FailedIsWorst(shape, evidence, a.value);
        }
    }
  }

  lemma AcceptedDecisionsOrder(shape: Shape, evidence: Evidence, evidence': Evidence, a: Decision, b: Decision)
    requires shape.outcome.Analyzed? && Coherent(a) && Coherent(b)
    requires Dominated(Worse, a.all, b.all) && Dominated(Worse, a.findings, b.findings)
    requires evidence.failures != [] ==> evidence'.failures != []
    requires AllSound(evidence'.down) ==> AllSound(evidence.down)
    ensures NeverHelps(CertificateFor(shape, evidence, Ok(a)), CertificateFor(shape, evidence', Ok(b)))
  {
    EffectiveScoresTheRest(shape, evidence, a);
    EffectiveScoresTheRest(shape, evidence', b);
    ScoresOrder(shape, evidence, evidence', a.all, b.all);
    ScoresOrder(shape, evidence, evidence', a.findings, b.findings);
    GradeIsSet(ScoreOver(shape, evidence, a.all));
    GateFollowsGrade(GradeOf(ScoreOver(shape, evidence, a.all)), GradeOf(ScoreOver(shape, evidence', b.all)),
                     shape.Coverage(), shape.ignoredCandidates);
  }

  lemma ScoresOrder(shape: Shape, evidence: Evidence, evidence': Evidence, xs: seq<Finding>, ys: seq<Finding>)
    requires shape.outcome.Analyzed? && Dominated(Worse, xs, ys)
    requires evidence.failures != [] ==> evidence'.failures != []
    requires AllSound(evidence'.down) ==> AllSound(evidence.down)
    ensures GradeOf(ScoreOver(shape, evidence', ys)).Rank() <= GradeOf(ScoreOver(shape, evidence, xs)).Rank()
  {
    ScoreAntitone(ScoreOver(shape, evidence, xs), ScoreOver(shape, evidence', ys));
  }

  lemma GateFollowsGrade(better: Grade, worse: Grade, coverage: Coverage, ignored: nat)
    requires better.Valid() && worse.Rank() <= better.Rank()
    ensures worse.Gate(coverage, ignored).GatePass? ==> better.Gate(coverage, ignored).GatePass?
  {
  }

  lemma FailedIsWorst(shape: Shape, evidence: Evidence, a: Decision)
    requires shape.outcome.Analyzed? && Coherent(a)
    ensures NeverHelps(CertificateFor(shape, evidence, Ok(a)), FailedCertificate())
  {
    EffectiveScoresTheRest(shape, evidence, a);
    GradeIsSet(ScoreOver(shape, evidence, a.all));
    GradeIsSet(ScoreOver(shape, evidence, a.findings));
  }

  lemma GradeIsSet(input: ScoreInput)
    ensures GradeOf(input).Valid()
    ensures input.outcome.Analyzed? ==> GradeOf(input).Rank() >= 0
  {
  }

  // ---------------------------------------------------------------- context

  lemma EnrichedRatchets(s: SnapshotSet, f: Finding)
    requires f.context.None?
    ensures Ratcheted(f, Enriched(s, f))
  {
    EnrichedIsRatchet(s, f);
  }

  lemma AllEnrichedRatchet(s: SnapshotSet, findings: seq<Finding>)
    requires forall f | f in findings :: f.context.None?
    ensures Dominated(Ratcheted, findings, EnrichAll(Some(s), findings))
  {
    var enrich := (f: Finding) => Enriched(s, f);
    forall f | f in findings ensures Ratcheted(f, enrich(f)) {
      EnrichedRatchets(s, f);
    }
    DominatedByImage(Ratcheted, enrich, findings);
  }

  lemma ContextKeepsDecision(e: Engine, s: SnapshotSet, run: RunConfig, findings: seq<Finding>)
    requires e.context.None? && forall f | f in findings :: f.context.None?
    ensures NoWorse(DecisionFor(e, run, findings), DecisionFor(e.(context := Some(s)), run, findings))
  {
    var sorted := Sorting.Sort(FindingLe, findings);
    forall f | f in sorted ensures f.context.None? {
      assert f in multiset(sorted);
    }
    AllEnrichedRatchet(s, sorted);
    PolicyKeepsRatchet(e.policy, run.covers, e.today, sorted, EnrichAll(Some(s), sorted));
  }

  /**
   Production context is a one-way ratchet end to end. For every changeset, policy, day and
   snapshot, supplying the snapshot raises neither grade and opens no gate, including when an
   override that was accepted is rejected because of what the snapshot showed.
   */
  lemma ContextNeverHelps(e: Engine, s: SnapshotSet, run: RunConfig, files: seq<string>, evidence: Evidence)
    requires e.context.None? && forall f | f in evidence.findings :: f.context.None?
    requires AnyClaimed(run.site, files)
    ensures NeverHelps(Certified(e, run, files, evidence), Certified(e.(context := Some(s)), run, files, evidence))
  {
    var e' := e.(context := Some(s));
    ContextKeepsDecision(e, s, run, evidence.findings);
    DecisionIsCoherent(e, run, evidence.findings);
    DecisionIsCoherent(e', run, evidence.findings);
    DecisionsOrderCertificates(ShapeOf(run, files), evidence, evidence,
                               DecisionFor(e, run, evidence.findings), DecisionFor(e', run, evidence.findings));
  }

  // ---------------------------------------------------------------- more findings

  predicate Same(f: Finding, g: Finding) { f == g }

  lemma EnrichedSublist(context: Option<SnapshotSet>, xs: seq<Finding>, ys: seq<Finding>)
    requires multiset(xs) <= multiset(ys)
    ensures Dominated(Ratcheted, EnrichAll(context, xs), EnrichAll(context, ys))
  {
    DominatedMultiset(Same, xs, ys);
    match context
    case None =>
      DominatedWeaken(Same, Ratcheted, xs, ys);
    case Some(s) =>
      var enrich := (f: Finding) => Enriched(s, f);
      DominatedMap(Same, Ratcheted, enrich, enrich, xs, ys);
  }

  /**
   Reporting more can never help: with everything already found still found, no grade rises and
   no gate opens, whatever the policy, the context and the day.
   */
  lemma MoreFindingsNeverHelp(
    e: Engine, run: RunConfig, files: seq<string>, evidence: Evidence, more: seq<Finding>)
    requires AnyClaimed(run.site, files)
    requires multiset(evidence.findings) <= multiset(more)
    ensures NeverHelps(Certified(e, run, files, evidence),
                       Certified(e, run, files, evidence.(findings := more)))
  {
    var xs, ys := Sorting.Sort(FindingLe, evidence.findings), Sorting.Sort(FindingLe, more);
    EnrichedSublist(e.context, xs, ys);
    PolicyKeepsRatchet(e.policy, run.covers, e.today, EnrichAll(e.context, xs), EnrichAll(e.context, ys));
    DecisionIsCoherent(e, run, evidence.findings);
    DecisionIsCoherent(e, run, more);
    DecisionsOrderCertificates(ShapeOf(run, files), evidence, evidence.(findings := more),
                               DecisionFor(e, run, evidence.findings), DecisionFor(e, run, more));
  }

  // ---------------------------------------------------------------- waivers

  predicate SameMeasurement(a: Certificate, b: Certificate) {
    && a.grade == b.grade && a.gate == b.gate && a.outcome == b.outcome && a.coverage == b.coverage
    && a.blockers == b.blockers && a.causes == b.causes && a.undoPlan == b.undoPlan
  }

  lemma ResolvedAlike(e: Engine, e': Engine, findings: seq<Finding>)
    requires OverridesOf(e.policy) == OverridesOf(e'.policy) && e.context == e'.context
    ensures Map(Resolved(e), findings) == Map(Resolved(e'), findings)
    ensures forall f :: Fate(e, f) == Fate(e', f)
  {
  }

  /**
   Waivers and dates accept risk; they do not measure it. Two runs with the same overrides agree on
   the grade, the gate, the blockers, the causes and the rollback plan, and a policy that only
   waives agrees with none.
   */
  lemma WaiversDoNotInterfere(
    e: Engine, policy: Option<PolicyFile>, day: int, run: RunConfig, files: seq<string>, evidence: Evidence)
    requires OverridesOf(e.policy) == OverridesOf(policy)
    ensures SameMeasurement(Certified(e, run, files, evidence),
                            Certified(e.(policy := policy, today := day), run, files, evidence))
  {
    var e' := e.(policy := policy, today := day);
    DecisionByFinding(e, run, evidence.findings);
    DecisionByFinding(e', run, evidence.findings);
    ResolvedAlike(e, e', Sorting.Sort(FindingLe, evidence.findings));
  }

  lemma SublistIsNoWorse(p: Finding -> bool, q: Finding -> bool, all: seq<Finding>)
    requires forall f | f in all && p(f) :: q(f)
    ensures Dominated(Worse, Filter(p, all), Filter(q, all))
  {
    DominatedMultiset(Same, all, all);
    DominatedFilter(Same, p, q, all, all);
    DominatedWeaken(Same, Worse, Filter(p, all), Filter(q, all));
  }

  /** Blocks once context and overrides have had their say. */
  predicate EndsBlocking(e: Engine, f: Finding) { Blocks(Resolved(e)(f)) }

  /** A finding that still counts ends up blocking. */
  predicate BlocksStill(e: Engine, run: RunConfig, findings: seq<Finding>) {
    exists f | f in findings :: EndsBlocking(e, f) && Remains(e, run)(Resolved(e)(f))
  }

  lemma StoppedByFinding(e: Engine, run: RunConfig, shape: Shape, evidence: Evidence)
    ensures var all := Map(Resolved(e), Sorting.Sort(FindingLe, evidence.findings));
      && (Stopped(ScoreOver(shape, evidence, all)) <==>
            evidence.failures != [] || exists f | f in evidence.findings :: EndsBlocking(e, f))
      && (Stopped(ScoreOver(shape, evidence, Filter(Remains(e, run), all))) <==>
            evidence.failures != [] ||
            BlocksStill(e, run, evidence.findings))
  {
    var sorted := Sorting.Sort(FindingLe, evidence.findings);
    var all := Map(Resolved(e), sorted);
    SortedMembers(evidence.findings);
    forall f | f in sorted ensures Resolved(e)(f) in all {
      var k :| 0 <= k < |sorted| && sorted[k] == f;
      assert all[k] == Resolved(e)(f);
    }
    forall g | g in all ensures exists f | f in sorted :: g == Resolved(e)(f) {
      var k :| 0 <= k < |all| && all[k] == g;
      assert sorted[k] in sorted;
    }
    forall g ensures g in Filter(Remains(e, run), all) <==> g in all && Remains(e, run)(g) {
      FilterMember(Remains(e, run), all, g);
    }
  }

  /**
   The effective grade is never below the grade, except on a run that measured nothing: there,
   waivers that cover every blocking finding turn an F back into an N/A.
   */
  lemma EffectiveAtLeastGrade(e: Engine, run: RunConfig, files: seq<string>, evidence: Evidence)
    ensures var cert := Certified(e, run, files, evidence);
      cert.effective.Rank() < cert.grade.Rank() <==>
        && !AnyClaimed(run.site, files)
        && evidence.failures == []
        && (forall f | f in evidence.findings :: Fate(e, f).Ok?)
        && (exists f | f in evidence.findings :: EndsBlocking(e, f))
        && (forall f | f in evidence.findings && EndsBlocking(e, f) :: !Remains(e, run)(Resolved(e)(f)))
  {
    var shape, decision := ShapeOf(run, files), DecisionFor(e, run, evidence.findings);
    DecisionByFinding(e, run, evidence.findings);
    if decision.Ok? {
      StoppedByFinding(e, run, shape, evidence);
      RestRanksHigher(shape, evidence, decision.value, Remains(e, run));
    }
  }

  lemma RestRanksHigher(shape: Shape, evidence: Evidence, d: Decision, remains: Finding -> bool)
    requires Coherent(d) && d.findings == Filter(remains, d.all)
    ensures var cert := CertificateFor(shape, evidence, Ok(d));
      cert.effective.Rank() < cert.grade.Rank() <==>
      Unmeasured(shape.outcome)
      && Stopped(ScoreOver(shape, evidence, d.all)) && !Stopped(ScoreOver(shape, evidence, d.findings))
  {
    SublistIsNoWorse(remains, (f: Finding) => true, d.all);
    FilterAll((f: Finding) => true, d.all);
    EffectiveScoresTheRest(shape, evidence, d);
    ScoreAntitone(ScoreOver(shape, evidence, d.findings), ScoreOver(shape, evidence, d.all));
  }

  /** Such a run exists: nothing claimed, and the only finding waived. */
  lemma WaivedUnmeasuredRunRanksBelow(e: Engine, run: RunConfig, files: seq<string>, f: Finding)
    requires f.reversibility.Irreversible? && !AnyClaimed(run.site, files)
    requires e.context.None? && e.policy.Some? && e.policy.value.overrides == []
    requires |e.policy.value.waivers| > 0 && Live(run.covers, e.today, e.policy.value.waivers[0], f)
    ensures var cert := Certified(e, run, files, Evidence([f], [], []));
      cert.grade == GradeF && cert.effective == NotApplicable
  {
    WaivedAsFound(e, run, f);
    assert [f][0] == f;
    EffectiveAtLeastGrade(e, run, files, Evidence([f], [], []));
    UnmeasuredGrades(ShapeOf(run, files), Evidence([f], [], []), DecisionFor(e, run, [f]));
  }

  lemma WaivedAsFound(e: Engine, run: RunConfig, f: Finding)
    requires f.reversibility.Irreversible? && e.context.None? && e.policy.Some? && e.policy.value.overrides == []
    requires |e.policy.value.waivers| > 0 && Live(run.covers, e.today, e.policy.value.waivers[0], f)
    ensures Fate(e, f) == Ok(f) && EndsBlocking(e, f) && !Remains(e, run)(Resolved(e)(f))
  {
  }

  lemma UnmeasuredGrades(shape: Shape, evidence: Evidence, decision: Result<Decision, PolicyError>)
    requires Unmeasured(shape.outcome)
    ensures var cert := CertificateFor(shape, evidence, decision);
      && (cert.grade == GradeF || cert.grade == NotApplicable)
      && (cert.effective == GradeF || cert.effective == NotApplicable)
  {
  }

  /** Setting more aside never lowers the effective grade of an analyzed change. */
  lemma WaivingMoreNeverHurts(e: Engine, more: Engine, run: RunConfig, files: seq<string>, evidence: Evidence)
    requires AnyClaimed(run.site, files)
    requires OverridesOf(e.policy) == OverridesOf(more.policy) && e.context == more.context
    requires forall f | Remains(more, run)(f) :: Remains(e, run)(f)
    ensures Certified(e, run, files, evidence).effective.Rank() <= Certified(more, run, files, evidence).effective.Rank()
  {
    DecisionByFinding(e, run, evidence.findings);
    DecisionByFinding(more, run, evidence.findings);
    ResolvedAlike(e, more, Sorting.Sort(FindingLe, evidence.findings));
    var a, b := DecisionFor(e, run, evidence.findings), DecisionFor(more, run, evidence.findings);
    if a.Ok? {
      SublistIsNoWorse(Remains(more, run), Remains(e, run), a.value.all);
      RestsCompare(ShapeOf(run, files), evidence, a.value, b.value);
    }
  }

  lemma RestsCompare(shape: Shape, evidence: Evidence, a: Decision, b: Decision)
    requires shape.outcome.Analyzed? && Coherent(a) && Coherent(b) && Dominated(Worse, b.findings, a.findings)
    ensures CertificateFor(shape, evidence, Ok(a)).effective.Rank()
         <= CertificateFor(shape, evidence, Ok(b)).effective.Rank()
  {
    EffectiveScoresTheRest(shape, evidence, a);
    EffectiveScoresTheRest(shape, evidence, b);
    ScoreAntitone(ScoreOver(shape, evidence, b.findings), ScoreOver(shape, evidence, a.findings));
  }

  /** The policy with one more waiver, the first one included. */
  function WithWaiver(policy: Option<PolicyFile>, w: Waiver): PolicyFile {
    var p := if policy.Some? then policy.value else PolicyFile(OtherGrade(""), [], [], []);
    p.(waivers := p.waivers + [w])
  }

  /** Appending a waiver never lowers the effective grade, nor does a policy that holds only one. */
  lemma AppendedWaiverNeverHurts(
    e: Engine, w: Waiver, run: RunConfig, files: seq<string>, evidence: Evidence)
    requires AnyClaimed(run.site, files)
    ensures Certified(e, run, files, evidence).effective.Rank() <=
            Certified(e.(policy := Some(WithWaiver(e.policy, w))), run, files, evidence).effective.Rank()
  {
    var more, waivers := e.(policy := Some(WithWaiver(e.policy, w))), WaiversOf(e.policy);
    forall f | Remains(more, run)(f) ensures Remains(e, run)(f) {
      if WaiverOf(run.covers, e.today, waivers, f).Some? {
        AppendedWaiverKeepsMatches(run.covers, e.today, waivers, w, f);
      }
    }
    WaivingMoreNeverHurts(e, more, run, files, evidence);
  }

  /** A later day never raises the effective grade: waivers only lapse. */
  lemma LaterDayNeverHelps(e: Engine, later: int, run: RunConfig, files: seq<string>, evidence: Evidence)
    requires e.today <= later && AnyClaimed(run.site, files)
    ensures Certified(e.(today := later), run, files, evidence).effective.Rank() <=
            Certified(e, run, files, evidence).effective.Rank()
  {
    var lapsed, waivers := e.(today := later), WaiversOf(e.policy);
    forall f | Remains(e, run)(f) ensures Remains(lapsed, run)(f) {
      if WaiverOf(run.covers, later, waivers, f).Some? {
        WaiversOnlyLapse(run.covers, e.today, later, waivers, f);
      }
    }
    WaivingMoreNeverHurts(lapsed, e, run, files, evidence);
  }

  /**
   The exact days on which a finding counts: every day, when its verdict cannot be accepted, and
   otherwise the days after the last day of every waiver for its rule and its file.
   */
  lemma CountsAfterEveryWaiver(e: Engine, run: RunConfig, files: seq<string>, evidence: Evidence, g: Finding)
    requires Accepted(e, evidence.findings)
    ensures g in Certified(e, run, files, evidence).findings <==>
      && (exists f | f in evidence.findings :: g == Resolved(e)(f))
      && (g.reversibility.Reversible? || g.reversibility.Costly? || g.reversibility.Irreversible? ==>
            forall w | w in WaiversOf(e.policy) && w.rule == g.ruleID && (w.path == "" || run.covers(w.path, g.file)) ::
              w.expires.Some? ==> e.today > w.expires.value)
  {
    var all := Map(Resolved(e), Sorting.Sort(FindingLe, evidence.findings));
    DecisionByFinding(e, run, evidence.findings);
    ResolvedMembers(e, evidence.findings, g);
    FilterMember(Remains(e, run), all, g);
    DecisionOrders(run.covers, e.today, WaiversOf(e.policy), all, g);
  }

  lemma ResolvedMembers(e: Engine, findings: seq<Finding>, g: Finding)
    ensures g in Map(Resolved(e), Sorting.Sort(FindingLe, findings)) <==>
            exists f | f in findings :: g == Resolved(e)(f)
  {
    var sorted := Sorting.Sort(FindingLe, findings);
    var all := Map(Resolved(e), sorted);
    SortedMembers(findings);
    if g in all {
      var k :| 0 <= k < |all| && all[k] == g;
      assert sorted[k] in sorted;
    }
    if f :| f in findings && g == Resolved(e)(f) {
      var k :| 0 <= k < |sorted| && sorted[k] == f;
      assert all[k] == g;
    }
  }

  // ---------------------------------------------------------------- the merge gate

  predicate Harmless(f: Finding) {
    && f.reversibility.Reversible?
    && f.lock.Severity() <= LockShort.Severity()
    && (f.context.Some? ==> !f.context.value.band.Disruptive? && !f.context.value.band.Outage?)
  }

  lemma GateOfCertificate(shape: Shape, evidence: Evidence, decision: Result<Decision, PolicyError>)
    ensures CertificateFor(shape, evidence, decision).gate.GatePass? <==>
      && evidence.failures == [] && shape.outcome.Analyzed? && shape.unsupported == []
      && shape.ignoredCandidates == 0
      && (forall s | s in evidence.down :: s.exists_ && s.parses)
      && decision.Ok?
      && (forall f | f in decision.value.all :: Harmless(f))
  {
    if decision.Ok? {
      GatePassesExactly(ScoreOver(shape, evidence, decision.value.all), shape.ignoredCandidates);
    }
  }

  lemma ShapeIsWhole(run: RunConfig, files: seq<string>)
    ensures var shape := ShapeOf(run, files);
            var site, enumerated := run.site, EnumeratedPaths(run, files);
      && (shape.outcome.Analyzed? <==> AnyClaimed(site, files))
      && (shape.unsupported == [] <==> forall p | p in enumerated :: Vouched(site, files, enumerated, p))
  {
    CoverageFailsClosed(run.site, files, EnumeratedPaths(run, files));
  }

  lemma IgnoredCandidatesExactly(run: RunConfig, files: seq<string>)
    ensures ShapeOf(run, files).ignoredCandidates == 0 <==>
            forall p | p in run.ignoredByPolicy :: !run.site.candidate(run.site.locate(p))
  {
    var ignored := Sorting.Sort(Text.LexLe, run.ignoredByPolicy);
    FilterEmpty(CandidateAt(run.site), ignored);
    forall p ensures p in ignored <==> p in run.ignoredByPolicy {
      assert p in multiset(ignored) <==> p in multiset(run.ignoredByPolicy);
    }
  }

  /** Whatever the findings carry, the gate is open exactly when nothing is wrong in the run or the decision. */
  lemma MergeGateOfRun(e: Engine, run: RunConfig, files: seq<string>, runs: seq<AnalyzerRun>)
    ensures var evidence := Collected(runs);
            var decision := DecisionFor(e, run, evidence.findings);
            var site, enumerated := run.site, EnumeratedPaths(run, files);
      Certified(e, run, files, evidence).gate.GatePass? <==>
      && (forall r | r in runs :: Finished(r))
      && AnyClaimed(site, files)
      && (forall p | p in enumerated :: Vouched(site, files, enumerated, p))
      && (forall p | p in run.ignoredByPolicy :: !site.candidate(site.locate(p)))
      && (forall s | s in evidence.down :: s.exists_ && s.parses)
      && decision.Ok?
      && (forall f | f in decision.value.all :: Harmless(f))
  {
    var evidence := Collected(runs);
    NoFailuresMeansAllFinished(runs);
    ShapeIsWhole(run, files);
    IgnoredCandidatesExactly(run, files);
    GateOfCertificate(ShapeOf(run, files), evidence, DecisionFor(e, run, evidence.findings));
  }

  /** A finding, as an analyzer reports it, that will not keep the gate shut. */
  predicate HarmlessAsFound(e: Engine, f: Finding) {
    && f.reversibility.Reversible?
    && f.lock.Severity() <= LockShort.Severity()
    && (forall o | o in OverridesOf(e.policy) :: o.rule == f.ruleID ==> o.severity.Reversible?)
    && !(e.context.Some? && f.ruleID == "PG017" && HasNulls(e.context.value, f))
  }

  lemma {:induction false} EscalatesToReversible(from: Reversibility, overrides: seq<Override>)
    ensures Escalates(from, overrides) &&
            (if overrides == [] then from else overrides[|overrides| - 1].severity).Reversible? <==>
            from.Reversible? && forall o | o in overrides :: o.severity.Reversible?
    decreases |overrides|
  {
    if overrides != [] {
      EscalatesToReversible(overrides[0].severity, overrides[1..]);
      assert overrides == [overrides[0]] + overrides[1..];
      assert forall o | o in overrides :: o == overrides[0] || o in overrides[1..];
      assert overrides[0] in overrides;
    }
  }

  lemma HarmlessEnriched(context: Option<SnapshotSet>, f: Finding)
    requires f.context.None?
    ensures var g := EnrichOne(context, f);
      && g.ruleID == f.ruleID
      && (Harmless(g) <==>
            && f.reversibility.Reversible? && f.lock.Severity() <= LockShort.Severity()
            && !(context.Some? && f.ruleID == "PG017" && HasNulls(context.value, f)))
  {
    if context.Some? {
      EnrichedIsRatchet(context.value, f);
      BandNeedsScan(context.value, f);
    }
  }

  lemma HarmlessTightened(overrides: seq<Override>, g: Finding)
    ensures Tightened(overrides, g).Ok? && Harmless(Tightened(overrides, g).value) <==>
            Harmless(g) && forall o | o in overrides :: o.rule == g.ruleID ==> o.severity.Reversible?
  {
    var named := Named(overrides, g.ruleID);
    TightenedMeaning(overrides, g);
    EscalatesToReversible(g.reversibility, named);
    forall o ensures o in named <==> o in overrides && o.rule == g.ruleID {
      FilterMember((o: Override) => AppliesTo(g.ruleID, o), overrides, o);
    }
  }

  lemma HarmlessExactly(e: Engine, f: Finding)
    requires f.context.None?
    ensures Fate(e, f).Ok? && Harmless(Fate(e, f).value) <==> HarmlessAsFound(e, f)
  {
    HarmlessEnriched(e.context, f);
    HarmlessTightened(OverridesOf(e.policy), EnrichOne(e.context, f));
  }

  lemma AllHarmlessExactly(e: Engine, run: RunConfig, findings: seq<Finding>)
    requires forall f | f in findings :: f.context.None?
    ensures var decision := DecisionFor(e, run, findings);
      decision.Ok? && (forall g | g in decision.value.all :: Harmless(g)) <==>
      forall f | f in findings :: HarmlessAsFound(e, f)
  {
    var sorted := Sorting.Sort(FindingLe, findings);
    var all := Map(Resolved(e), sorted);
    DecisionByFinding(e, run, findings);
    SortedMembers(findings);
    forall f | f in findings
      ensures Resolved(e)(f) in all
      ensures Fate(e, f).Ok? && Harmless(Fate(e, f).value) <==> HarmlessAsFound(e, f)
    {
      var k :| 0 <= k < |sorted| && sorted[k] == f;
      assert all[k] == Resolved(e)(f);
      HarmlessExactly(e, f);
    }
    forall g | g in all ensures exists f | f in findings :: g == Resolved(e)(f) {
      var k :| 0 <= k < |all| && all[k] == g;
      assert sorted[k] in sorted;
    }
  }

  /**
   An agent may merge exactly when every analyzer finished, something was read, everything that had
   to be was read and claimed, no ignored path is a candidate, every down migration is sound, and
   every finding reported, waived or not, is reversible under at most a short lock, with no
   override that says otherwise and no production nulls that will make it fail.
   */
  lemma MergeGateMeans(e: Engine, run: RunConfig, files: seq<string>, runs: seq<AnalyzerRun>)
    requires forall r | r in runs && r.Ran? :: forall f | f in r.findings :: f.context.None?
    ensures var site, enumerated := run.site, EnumeratedPaths(run, files);
      Certified(e, run, files, Collected(runs)).gate.GatePass? <==>
      && (forall r | r in runs :: r.Ran? && !r.down.ValidationFailed?)
      && AnyClaimed(site, files)
      && (forall p | p in enumerated :: Vouched(site, files, enumerated, p))
      && (forall p | p in run.ignoredByPolicy :: !site.candidate(site.locate(p)))
      && (forall r | r in runs && r.Ran? && r.down.Validated? ::
            forall s | s in r.down.statuses :: s.exists_ && s.parses)
      && (forall r | r in runs && r.Ran? :: forall f | f in r.findings :: HarmlessAsFound(e, f))
  {
    CollectedMembers(runs);
    MergeGateOfRun(e, run, files, runs);
    AllHarmlessExactly(e, run, Collected(runs).findings);
  }

  lemma CollectedMembers(runs: seq<AnalyzerRun>)
    ensures forall f :: f in Collected(runs).findings <==> exists r | r in runs :: r.Ran? && f in r.findings
    ensures forall s :: s in Collected(runs).down <==>
                        exists r | r in runs :: r.Ran? && r.down.Validated? && s in r.down.statuses
  {
    forall f: Finding ensures f in Collected(runs).findings <==> exists r | r in runs :: r.Ran? && f in r.findings {
      FindingsAreCollected(runs, f);
    }
    forall s: DownStatus
      ensures s in Collected(runs).down <==>
              exists r | r in runs :: r.Ran? && r.down.Validated? && s in r.down.statuses
    {
      StatusesAreCollected(runs, s);
    }
  }

  // ---------------------------------------------------------------- the rollback plan

  lemma {:induction false} ResolvedSteps(e: Engine, xs: seq<Finding>)
    requires forall f | f in xs :: Fate(e, f).Ok?
    ensures Map(Undo.StepOf, Filter(Undo.HasStep, Map(Resolved(e), xs))) == Map(Undo.StepOf, Filter(Undo.HasStep, xs))
  {
    if xs != [] {
      var f := xs[0];
      assert f in xs;
      TightenedMeaning(OverridesOf(e.policy), EnrichOne(e.context, f));
      assert Resolved(e)(f).undo == f.undo;
      ResolvedSteps(e, xs[1..]);
      assert Map(Resolved(e), xs)[1..] == Map(Resolved(e), xs[1..]);
      StepsHead(xs);
      StepsHead(Map(Resolved(e), xs));
    }
  }

  lemma StepsHead(xs: seq<Finding>)
    requires xs != []
    ensures Map(Undo.StepOf, Filter(Undo.HasStep, xs)) ==
            (if Undo.HasStep(xs[0]) then [Undo.StepOf(xs[0])] else []) + Map(Undo.StepOf, Filter(Undo.HasStep, xs[1..]))
  {
  }

  lemma PlanOfResolved(e: Engine, xs: seq<Finding>)
    requires forall f | f in xs :: Fate(e, f).Ok? && !Undo.LeavesNoUndo(Fate(e, f).value)
    ensures Undo.PlanOf(Map(Resolved(e), xs)) == Undo.Reversed(Map(Undo.StepOf, Filter(Undo.HasStep, xs)))
  {
    var all := Map(Resolved(e), xs);
    forall g | g in all ensures !Undo.LeavesNoUndo(g) {
      var k :| 0 <= k < |all| && all[k] == g;
      assert xs[k] in xs;
    }
    FilterEmpty(Undo.LeavesNoUndo, all);
    ResolvedSteps(e, xs);
  }

  lemma CertifiedPlan(e: Engine, run: RunConfig, files: seq<string>, evidence: Evidence, sorted: seq<Finding>)
    requires sorted == Sorting.Sort(FindingLe, evidence.findings)
    requires forall f | f in evidence.findings :: Fate(e, f).Ok? && !Undo.LeavesNoUndo(Fate(e, f).value)
    ensures Certified(e, run, files, evidence).undoPlan ==
            Undo.Reversed(Map(Undo.StepOf, Filter(Undo.HasStep, sorted)))
  {
    DecisionByFinding(e, run, evidence.findings);
    SortedMembers(evidence.findings);
    PlanOfResolved(e, sorted);
  }

  /**
   The plan on the certificate unwinds the change. It is built from findings that context and
   overrides have been through; as long as neither leaves one of them nothing to undo, running it
   from the final state returns to where the changes, in order of place, started.
   */
  lemma CertifiedPlanUnwinds<S>(
    e: Engine, run: RunConfig, files: seq<string>, evidence: Evidence,
    apply: (Finding, S) -> S, undo: (UndoStep, S) -> S, applied: seq<Finding>, s: S)
    requires multiset(evidence.findings) == multiset(applied)
    requires forall i, j | 0 <= i < j < |applied| :: PlacedBefore(applied[i], applied[j])
    requires forall f | f in applied :: Fate(e, f).Ok? && !Undo.LeavesNoUndo(Fate(e, f).value)
    requires Undo.Inverts(apply, undo, applied, s)
    ensures Undo.RunAll(undo, Certified(e, run, files, evidence).undoPlan, Undo.ApplyAll(apply, applied, s)) == s
  {
    Undo.SortRestoresApplicationOrder(applied, evidence.findings);
    forall f | f in evidence.findings ensures f in applied {
      assert f in multiset(applied);
    }
    CertifiedPlan(e, run, files, evidence, applied);
    Undo.StepsUnwind(apply, undo, applied, s);
  }

  // ---------------------------------------------------------------- another enumeration

  /** Only coverage keeps the effective grade down, and the other enumeration clears it. */
  ghost predicate ClearsCoverage(
    e: Engine, run: RunConfig, other: seq<string>, files: seq<string>, evidence: Evidence)
  {
    && AnyClaimed(run.site, files)
    && !Whole(run, files) && Whole(run.(enumerated := other), files)
    && evidence.failures == [] && Accepted(e, evidence.findings)
    && !BlocksStill(e, run, evidence.findings)
  }

  lemma RankByCoverage(a: Shape, b: Shape, evidence: Evidence, findings: seq<Finding>)
    requires if a.outcome.Analyzed? then b.outcome.Analyzed? else Unmeasured(a.outcome) && Unmeasured(b.outcome)
    ensures GradeOf(ScoreOver(b, evidence, findings)).Rank() > GradeOf(ScoreOver(a, evidence, findings)).Rank() <==>
              a.outcome.Analyzed? && a.unsupported != [] && b.unsupported == []
              && !Stopped(ScoreOver(a, evidence, findings))
    ensures GradeOf(ScoreOver(a, evidence, findings)).GradeA? ==> a.outcome.Analyzed? && a.Coverage().Full?
  {
  }

  lemma GateByRank(better: Grade, worse: Grade, coverage: Coverage, coverage': Coverage, ignored: nat)
    requires better.Valid() && worse.Rank() <= better.Rank()
    requires better.GradeA? ==> coverage.Full?
    ensures worse.Gate(coverage', ignored).GatePass? ==> better.Gate(coverage, ignored).GatePass?
  {
  }

  /** One decision, two measurements of coverage. */
  lemma CoverageCompares(a: Shape, b: Shape, evidence: Evidence, d: Decision)
    requires Coherent(d) && forall f | f in d.findings :: f in d.all
    requires if a.outcome.Analyzed? then b.outcome.Analyzed? else Unmeasured(a.outcome) && Unmeasured(b.outcome)
    requires a.ignoredCandidates == b.ignoredCandidates
    ensures var clears := a.outcome.Analyzed? && a.unsupported != [] && b.unsupported == []
                          && !Stopped(ScoreOver(a, evidence, d.findings));
            var c, c' := CertificateFor(a, evidence, Ok(d)), CertificateFor(b, evidence, Ok(d));
      && (c'.effective.Rank() > c.effective.Rank() <==> clears)
      && (NeverHelps(c, c') <==> !clears)
  {
    EffectiveScoresTheRest(a, evidence, d);
    EffectiveScoresTheRest(b, evidence, d);
    RankByCoverage(a, b, evidence, d.all);
    RankByCoverage(a, b, evidence, d.findings);
    var grade, grade' := GradeOf(ScoreOver(a, evidence, d.all)), GradeOf(ScoreOver(b, evidence, d.all));
    GradeIsSet(ScoreOver(a, evidence, d.all));
    if grade'.Rank() <= grade.Rank() {
      GateByRank(grade, grade', a.Coverage(), b.Coverage(), a.ignoredCandidates);
    }
  }

  /**
   Measuring coverage against another list of paths can help in exactly one way: something was
   claimed, only coverage stood in the way, and the other list leaves nothing unvouched for. Then
   the effective grade rises; otherwise neither grade does and the gate stays as shut as it was.
   */
  lemma EnumerationHelpsExactly(
    e: Engine, run: RunConfig, other: seq<string>, files: seq<string>, evidence: Evidence)
    ensures var a, b := Certified(e, run, files, evidence), Certified(e, run.(enumerated := other), files, evidence);
      && (b.effective.Rank() > a.effective.Rank() <==> ClearsCoverage(e, run, other, files, evidence))
      && (NeverHelps(a, b) <==> !ClearsCoverage(e, run, other, files, evidence))
  {
    var run' := run.(enumerated := other);
    var shape, shape', decision := ShapeOf(run, files), ShapeOf(run', files), DecisionFor(e, run, evidence.findings);
    DecisionByFinding(e, run, evidence.findings);
    if decision.Ok? {
      OutcomeByPaths(run, files);
      OutcomeByPaths(run', files);
      StoppedByFinding(e, run, shape, evidence);
      RestIsWithin(Remains(e, run), decision.value.all);
      CoverageCompares(shape, shape', evidence, decision.value);
    }
  }

  lemma RestIsWithin(remains: Finding -> bool, all: seq<Finding>)
    ensures forall f | f in Filter(remains, all) :: f in all
  {
    forall f | f in Filter(remains, all) ensures f in all {
      FilterMember(remains, all, f);
    }
  }

  lemma MoreEnumeratedStaysPartial(run: RunConfig, more: seq<string>, files: seq<string>)
    requires forall p | p in EnumeratedPaths(run, files) :: p in EnumeratedPaths(run.(enumerated := more), files)
    requires !Whole(run, files)
    ensures !Whole(run.(enumerated := more), files)
  {
    var run' := run.(enumerated := more);
    OutcomeByPaths(run, files);
    OutcomeByPaths(run', files);
    EnumeratingMoreKeepsUnsupported(run.site, files, EnumeratedPaths(run, files), EnumeratedPaths(run', files),
                                    ShapeOf(run, files).unsupported[0]);
  }

  /**
   So listing more paths never raises either grade and never opens the gate, provided what coverage
   was measured against is still listed; an empty enumeration stands for the files themselves.
   */
  lemma EnumeratingMoreNeverHelps(
    e: Engine, run: RunConfig, more: seq<string>, files: seq<string>, evidence: Evidence)
    requires forall p | p in EnumeratedPaths(run, files) :: p in EnumeratedPaths(run.(enumerated := more), files)
    ensures NeverHelps(Certified(e, run, files, evidence), Certified(e, run.(enumerated := more), files, evidence))
  {
    EnumerationHelpsExactly(e, run, more, files, evidence);
    if !Whole(run, files) {
      MoreEnumeratedStaysPartial(run, more, files);
    }
  }

  /**
   Without that proviso it can help: listing the one file that was claimed, where nothing was listed
   before, takes the other off the books and an F to an A.
   */
  lemma FirstEnumerationCanHelp(e: Engine, run: RunConfig, p: string, q: string)
    requires run.enumerated == [] && p != q
    requires run.site.supports(run.site.locate(p))
    requires !run.site.supports(run.site.locate(q)) && run.site.candidate(run.site.locate(q))
    ensures Certified(e, run, [p, q], Evidence([], [], [])).grade == GradeF
    ensures Certified(e, run.(enumerated := [p]), [p, q], Evidence([], [], [])).grade == GradeA
  {
    TwoFilesListed(run, p, q);
    GradeOfNothing(e, run, [p, q], Evidence([], [], []));
    GradeOfNothing(e, run.(enumerated := [p]), [p, q], Evidence([], [], []));
  }

  lemma TwoFilesListed(run: RunConfig, p: string, q: string)
    requires run.enumerated == [] && p != q
    requires run.site.supports(run.site.locate(p))
    requires !run.site.supports(run.site.locate(q)) && run.site.candidate(run.site.locate(q))
    ensures AnyClaimed(run.site, [p, q]) && !Whole(run, [p, q]) && Whole(run.(enumerated := [p]), [p, q])
  {
    var files := [p, q];
    assert files[0] == p && files[1] == q;
    assert q in EnumeratedPaths(run, files) && !Vouched(run.site, files, files, q);
    assert EnumeratedPaths(run.(enumerated := [p]), files) == [p];
  }

  lemma ScoreOfNothing(shape: Shape, evidence: Evidence)
    requires shape.outcome.Analyzed? && evidence.failures == [] && AllSound(evidence.down)
    ensures GradeOf(ScoreOver(shape, evidence, [])) == if shape.unsupported == [] then GradeA else GradeF
  {
  }

  /** With nothing found, nothing failed and every down migration sound, coverage alone decides. */
  lemma GradeOfNothing(e: Engine, run: RunConfig, files: seq<string>, evidence: Evidence)
    requires evidence.findings == [] && evidence.failures == [] && AllSound(evidence.down) && AnyClaimed(run.site, files)
    ensures var cert := Certified(e, run, files, evidence);
      cert.grade == cert.effective == if Whole(run, files) then GradeA else GradeF
  {
    OutcomeByPaths(run, files);
    GradeOfRun(e, run, files, evidence);
    EffectiveOfRun(e, run, files, evidence);
    ScoreOfNothing(ShapeOf(run, files), evidence);
  }
}
