/** What scoring promises across two runs, and what an open merge gate means. */
module ScoreProperties {
  import opened Domain
  import opened Dominance
  import opened Scorer

  function CeilingRank(f: Finding): int {
    if f.context.None? then 3
    else match f.context.value.band.Cap()
      case None => 3
      case Some(g) => g.Rank()
  }

  /** `g` is at least as bad a finding as `f`: verdict up, lock up, ceiling down. */
  predicate Worse(f: Finding, g: Finding) {
    && f.reversibility.Severity() <= g.reversibility.Severity()
    && f.lock.Severity() <= g.lock.Severity()
    && CeilingRank(g) <= CeilingRank(f)
  }

  /** Everything in `b` is at least as bad as in `a`; the shape of the run is the same. */
  ghost predicate WorseInput(a: ScoreInput, b: ScoreInput) {
    && (a.failures != [] ==> b.failures != [])
    && Dominated(Worse, a.findings, b.findings)
    && (AllSound(b.down) ==> AllSound(a.down))
    && (a.unsupported != [] ==> b.unsupported != [])
    && a.outcome == b.outcome
  }

  lemma WorseBlocks(a: seq<Finding>, b: seq<Finding>)
    requires Dominated(Worse, a, b)
    requires exists f | f in a :: Blocks(f)
    ensures exists g | g in b :: Blocks(g)
  {
    var f :| f in a && Blocks(f);
    DominatedExists(Worse, a, b, f);
  }

  lemma WorseLocks(a: seq<Finding>, b: seq<Finding>, level: LockHazard)
    requires Dominated(Worse, a, b) && HasLock(a, level)
    ensures HasLock(b, level)
  {
    var f :| f in a && f.lock.AtLeast(level);
    DominatedExists(Worse, a, b, f);
  }

  lemma WorseBands(a: seq<Finding>, b: seq<Finding>)
    requires Dominated(Worse, a, b)
    ensures HasBand(a, Outage) ==> HasBand(b, Outage)
    ensures HasBand(a, Disruptive) ==> HasBand(b, Disruptive) || HasBand(b, Outage)
  {
    forall f | f in a && CeilingRank(f) < 3
      ensures exists g :: g in b && CeilingRank(g) <= CeilingRank(f)
    {
      DominatedExists(Worse, a, b, f);
    }
  }

  lemma WorseCosts(a: seq<Finding>, b: seq<Finding>)
    requires Dominated(Worse, a, b)
    requires forall g | g in b :: !Blocks(g)
    ensures Count(IsCostly, a) <= Count(IsCostly, b)
    ensures AllReversible(b) ==> AllReversible(a)
  {
    DominatedCount(Worse, IsCostly, IsCostly, a, b);
    forall f | f in a && !f.reversibility.Reversible? ensures !AllReversible(b) {
      DominatedExists(Worse, a, b, f);
    }
  }

  lemma MeasuredAntitone(a: ScoreInput, b: ScoreInput)
    requires WorseInput(a, b) && forall g | g in b.findings :: !Blocks(g)
    ensures Measured(b.findings, b.down).Rank() <= Measured(a.findings, a.down).Rank()
  {
    WorseCosts(a.findings, b.findings);
    WorseBands(a.findings, b.findings);
    if HasLock(a.findings, LockFullScan) {
      WorseLocks(a.findings, b.findings, LockFullScan);
    }
  }

  predicate Unmeasured(outcome: Outcome) { outcome.NoCandidates? || outcome.UnsupportedContent? }

  /**
   A worse run never ranks above a better one, with exactly one exception: a run that measured
   nothing has no rank to lose, so the blocker that turns its N/A into an F raises it.
   */
  lemma ScoreAntitone(a: ScoreInput, b: ScoreInput)
    requires WorseInput(a, b)
    ensures GradeOf(b).Rank() > GradeOf(a).Rank() <==> Unmeasured(a.outcome) && !Stopped(a) && Stopped(b)
  {
    if exists f | f in a.findings :: Blocks(f) {
      WorseBlocks(a.findings, b.findings);
    }
    if !Stopped(b) && a.outcome.Analyzed? {
      MeasuredAntitone(a, b);
    }
  }

  /** Inputs each no better than the other get the same grade. */
  lemma EquallyBad(a: ScoreInput, b: ScoreInput)
    requires WorseInput(a, b) && WorseInput(b, a)
    ensures GradeOf(a) == GradeOf(b)
  {
    if exists f | f in a.findings :: Blocks(f) {
      WorseBlocks(a.findings, b.findings);
    }
    if exists f | f in b.findings :: Blocks(f) {
      WorseBlocks(b.findings, a.findings);
    }
    assert Stopped(a) <==> Stopped(b);
    ScoreAntitone(a, b);
    ScoreAntitone(b, a);
    assert GradeOf(a).Valid() && GradeOf(b).Valid() && GradeOf(a).Rank() == GradeOf(b).Rank();
  }

  /** The exception is real. */
  lemma BlockerRaisesUnmeasuredRun(f: Finding, outcome: Outcome)
    requires Blocks(f) && Unmeasured(outcome)
    ensures var a := ScoreInput([], [], [], outcome, []);
            var b := ScoreInput([f], [], [], outcome, []);
            WorseInput(a, b) && GradeOf(b).Rank() > GradeOf(a).Rank()
  {
    var b := ScoreInput([f], [], [], outcome, []);
    assert f in b.findings;
  }

  /** The grade does not depend on the order findings arrive in. */
  lemma GradeIgnoresOrder(a: ScoreInput, findings: seq<Finding>)
    requires multiset(findings) == multiset(a.findings)
    ensures GradeOf(a.(findings := findings)) == GradeOf(a)
  {
    var b := a.(findings := findings);
    DominatedMultiset(Worse, a.findings, findings);
    DominatedMultiset(Worse, findings, a.findings);
    ScoreAntitone(a, b);
    ScoreAntitone(b, a);
    forall f ensures f in findings <==> f in a.findings {
      assert f in multiset(findings) <==> f in multiset(a.findings);
    }
  }

  /** The gate the certificate carries, with coverage read off the list of unread files. */
  function GateFor(input: ScoreInput, policyIgnored: nat): GateStatus {
    GradeOf(input).Gate(if input.unsupported == [] then Full else Partial, policyIgnored)
  }

  /** An agent may merge exactly when nothing at all is wrong, in the terms of the evidence. */
  lemma GatePassesExactly(input: ScoreInput, policyIgnored: nat)
    ensures GateFor(input, policyIgnored).GatePass? <==>
      && input.failures == []
      && input.outcome.Analyzed?
      && input.unsupported == []
      && policyIgnored == 0
      && (forall s | s in input.down :: s.exists_ && s.parses)
      && (forall f | f in input.findings ::
            && f.reversibility.Reversible?
            && f.lock.Severity() <= LockShort.Severity()
            && (f.context.Some? ==> !f.context.value.band.Disruptive? && !f.context.value.band.Outage?))
  {
    FilterEmpty(IsCostly, input.findings);
  }

  /** And it answers N/A exactly when nothing was measured and nothing went wrong finding that out. */
  lemma GateNotApplicableExactly(input: ScoreInput, policyIgnored: nat)
    ensures GateFor(input, policyIgnored).GateNotApplicable? <==> Unmeasured(input.outcome) && !Stopped(input)
  {
  }

  /** Every F, and every run over unreadable content, says why; a measured A, B or C has nothing to say. */
  lemma BlockersExplainFailure(input: ScoreInput)
    ensures BlockersOf(input) != [] <==>
            GradeOf(input).GradeF? || (input.outcome.UnsupportedContent? && GradeOf(input).NotApplicable?)
  {
    FilterEmpty(Blocks, input.findings);
  }

  /**
   The rule tables note that a DISRUPTIVE ceiling never decides a grade on its own, because a band
   is computed only where the lock already is a full scan or worse.
   */
  lemma DisruptiveNeverDecides(findings: seq<Finding>, down: seq<DownStatus>)
    requires forall f | f in findings && f.context.Some? && f.context.value.band.Disruptive? ::
               f.lock.AtLeast(LockFullScan)
    ensures Measured(findings, down) ==
            if Count(IsCostly, findings) >= 3 || !AllSound(down) || HasBand(findings, Outage) then GradeC
            else if !AllReversible(findings) || HasLock(findings, LockFullScan) then GradeB
            else GradeA
  {
  }

  // ---------------------------------------------------------------- the grades, in so many words

  /** Three different findings that are COSTLY. */
  predicate ThreeCostly(findings: seq<Finding>) {
    exists i, j, k | 0 <= i < j < k < |findings| ::
      findings[i].reversibility.Costly? && findings[j].reversibility.Costly? && findings[k].reversibility.Costly?
  }

  predicate CostlyAfter(findings: seq<Finding>, from: nat) {
    exists k | from <= k < |findings| :: findings[k].reversibility.Costly?
  }

  predicate TwoCostlyAfter(findings: seq<Finding>, from: nat) {
    exists j | from <= j < |findings| :: findings[j].reversibility.Costly? && CostlyAfter(findings, j + 1)
  }

  predicate ThreeCostlyAfter(findings: seq<Finding>, from: nat) {
    exists i | from <= i < |findings| :: findings[i].reversibility.Costly? && TwoCostlyAfter(findings, i + 1)
  }

  lemma {:induction false} CountFrom(findings: seq<Finding>, from: nat)
    requires from <= |findings|
    ensures Count(IsCostly, findings[from..]) >= 1 <==> CostlyAfter(findings, from)
    ensures Count(IsCostly, findings[from..]) >= 2 <==> TwoCostlyAfter(findings, from)
    ensures Count(IsCostly, findings[from..]) >= 3 <==> ThreeCostlyAfter(findings, from)
    decreases |findings| - from
  {
    if from < |findings| {
      CountFrom(findings, from + 1);
      assert findings[from..][1..] == findings[from + 1..];
    }
  }

  lemma ThreeCostlyCounts(findings: seq<Finding>)
    ensures Count(IsCostly, findings) >= 3 <==> ThreeCostly(findings)
  {
    CountFrom(findings, 0);
    assert findings[0..] == findings;
    ThreeInOrder(findings);
  }

  lemma ThreeInOrder(findings: seq<Finding>)
    ensures ThreeCostlyAfter(findings, 0) <==> ThreeCostly(findings)
  {
    if i, j, k :| 0 <= i < j < k < |findings| && findings[i].reversibility.Costly?
                  && findings[j].reversibility.Costly? && findings[k].reversibility.Costly? {
      assert CostlyAfter(findings, j + 1) && TwoCostlyAfter(findings, i + 1);
    }
  }

  /** Nobody can say that it can be undone: neither REVERSIBLE nor COSTLY. */
  predicate SomethingStops(input: ScoreInput) {
    input.failures != [] || exists f | f in input.findings :: !f.reversibility.Reversible? && !f.reversibility.Costly?
  }

  /** A run that read and claimed something, missed nothing, and that nothing stops. */
  predicate IsMeasured(input: ScoreInput) {
    input.outcome.Analyzed? && input.unsupported == [] && !SomethingStops(input)
  }

  /**
   Which grade a run gets. N/A: nothing was there to measure, and nothing stops it. A, B or C: measured.
   F: everything else. Of the measured, A: all reversible, no lock above SHORT, every down migration
   there and parsing, no disruptive band or outage; C: three costly findings, a down migration that is not, or an
   outage; B: the rest.
   */
  lemma GradeMeans(input: ScoreInput)
    ensures GradeOf(input).NotApplicable? <==>
            !SomethingStops(input) && (input.outcome.NoCandidates? || input.outcome.UnsupportedContent?)
    ensures GradeOf(input).GradeA? || GradeOf(input).GradeB? || GradeOf(input).GradeC? <==> IsMeasured(input)
    ensures GradeOf(input).Valid()
    ensures GradeOf(input).GradeC? <==>
      && IsMeasured(input)
      && (ThreeCostly(input.findings)
          || (exists s | s in input.down :: !s.exists_ || !s.parses)
          || (exists f | f in input.findings :: f.context.Some? && f.context.value.band.Outage?))
    ensures GradeOf(input).GradeA? <==>
      && IsMeasured(input)
      && (forall s | s in input.down :: s.exists_ && s.parses)
      && (forall f | f in input.findings ::
            && f.reversibility.Reversible?
            && (f.lock.LockNone? || f.lock.LockShort?)
            && (f.context.Some? ==> !f.context.value.band.Disruptive? && !f.context.value.band.Outage?))
  {
    ThreeCostlyCounts(input.findings);
    StoppedInWords(input);
    AllFineInWords(input.findings, input.down);
  }

  lemma StoppedInWords(input: ScoreInput)
    ensures Stopped(input) <==> SomethingStops(input)
  {
  }

  lemma AllFineInWords(findings: seq<Finding>, down: seq<DownStatus>)
    ensures Measured(findings, down).GradeA? <==>
      && AllSound(down)
      && forall f | f in findings ::
           && f.reversibility.Reversible?
           && (f.lock.LockNone? || f.lock.LockShort?)
           && (f.context.Some? ==> !f.context.value.band.Disruptive? && !f.context.value.band.Outage?)
  {
    FilterEmpty(IsCostly, findings);
  }
}
