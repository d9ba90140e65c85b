/**
 Scoring: from classified findings and the shape of the run to a grade, the reasons for it, and
 the merge gate.
 */
module Scorer {
  import opened Text
  import opened Domain
  import opened Dominance
  import Sorting

  datatype ScoreInput = ScoreInput(
    findings: seq<Finding>, down: seq<DownStatus>, failures: seq<string>,
    outcome: Outcome, unsupported: seq<string>)

  datatype Blocker =
    | AnalysisIncomplete(failure: string)
    | UnrecognisedVerdict(rule: string, file: string, line: int, verdict: Reversibility)
    | IrreversibleChange(rule: string, file: string, line: int)
    | UnknownChange(rule: string, file: string, line: int)
    | WillNotApply(rule: string, file: string, line: int)
    | PartialCoverage
    | NotAnalyzed(path: string)
    | NotAssessed(paths: seq<string>)
    | RunShapeUnknown

  datatype MissedCondition = NotAllReversible | WorstLockIs(lock: LockHazard) | DownMigrationUnsound

  datatype CapReason =
    | NoUsableDown(migrations: seq<string>)
    | HeavyLock(lock: LockHazard)
    | LockHeld(rule: string, file: string, line: int, band: Band)
    | ARowMissed(missed: seq<MissedCondition>)

  datatype Cap = Cap(limit: Grade, reason: CapReason)

  datatype Cause =
    | DidNotComplete
    | Blocked(count: nat)
    | CoverageIsPartial(count: nat)
    | NothingToClaim
    | NothingReadable
    | ShapeNotEstablished
    | Assigned(grade: Grade, costly: nat)
    | Capped(cap: Cap)
    | NothingCapped

  datatype ScoreResult = ScoreResult(grade: Grade, blockers: seq<Blocker>, causes: seq<Cause>)

  // ---------------------------------------------------------------- what blocks a grade

  predicate Blocks(f: Finding) {
    match f.reversibility
    case Irreversible | Unknown | WillFail | OtherVerdict(_) => true
    case Reversible | Costly => false
  }

  function BlockerFor(f: Finding): Blocker {
    match f.reversibility
    case Irreversible => IrreversibleChange(f.ruleID, f.file, f.line)
    case Unknown => UnknownChange(f.ruleID, f.file, f.line)
    case WillFail => WillNotApply(f.ruleID, f.file, f.line)
    case v => UnrecognisedVerdict(f.ruleID, f.file, f.line, v)
  }

  /** Exactly one blocker per finding that forces an F, in the order of the findings. */
  method BlockingFindings(findings: seq<Finding>) returns (blockers: seq<Blocker>)
    ensures blockers == Map(BlockerFor, Filter(Blocks, findings))
  {
    blockers := [];
    for i := 0 to |findings|
      invariant blockers == Map(BlockerFor, Filter(Blocks, findings[..i]))
    {
      var f := findings[i];
      CollectStep(Blocks, BlockerFor, findings, i);
      if !f.reversibility.Valid() {
        blockers := blockers + [UnrecognisedVerdict(f.ruleID, f.file, f.line, f.reversibility)];
        continue;
      }
      match f.reversibility {
        case Irreversible => blockers := blockers + [IrreversibleChange(f.ruleID, f.file, f.line)];
        case Unknown => blockers := blockers + [UnknownChange(f.ruleID, f.file, f.line)];
        case WillFail => blockers := blockers + [WillNotApply(f.ruleID, f.file, f.line)];
        case _ =>
      }
    }
    assert findings[..|findings|] == findings;
  }

  /** Which findings the blockers name, and as what: every verdict that is neither REVERSIBLE nor COSTLY. */
  lemma BlockersNameFindings(findings: seq<Finding>, b: Blocker)
    ensures b in Map(BlockerFor, Filter(Blocks, findings)) <==> exists f | f in findings ::
      || (f.reversibility.Irreversible? && b == IrreversibleChange(f.ruleID, f.file, f.line))
      || (f.reversibility.Unknown? && b == UnknownChange(f.ruleID, f.file, f.line))
      || (f.reversibility.WillFail? && b == WillNotApply(f.ruleID, f.file, f.line))
      || (f.reversibility.OtherVerdict? && b == UnrecognisedVerdict(f.ruleID, f.file, f.line, f.reversibility))
  {
    CollectedMember(Blocks, BlockerFor, findings, b);
  }

  // ---------------------------------------------------------------- down migrations

  predicate Sound(s: DownStatus) { s.exists_ && s.parses }

  predicate AllSound(statuses: seq<DownStatus>) { forall s | s in statuses :: Sound(s) }

  method DownMigrationsAreSound(statuses: seq<DownStatus>) returns (ok: bool)
    ensures ok == AllSound(statuses)
  {
    for i := 0 to |statuses|
      invariant AllSound(statuses[..i])
    {
      var s := statuses[i];
      assert s in statuses && statuses[..i + 1] == statuses[..i] + [s];
      if !s.exists_ || !s.parses {
        return false;
      }
    }
    assert statuses[..|statuses|] == statuses;
    return true;
  }

  function NameOf(s: DownStatus): string { if s.upFile == "" then s.migration else s.upFile }

  predicate Unsound(s: DownStatus) { !Sound(s) }

  function UnsoundNames(statuses: seq<DownStatus>): seq<string> {
    Sorting.Sort(LexLe, Map(NameOf, Filter(Unsound, statuses)))
  }

  /** The names given are of the down migrations missing or not parsing: the up file, or else the migration. */
  lemma UnsoundNamesExactly(statuses: seq<DownStatus>, name: string)
    ensures name in UnsoundNames(statuses) <==> exists s | s in statuses ::
      (!s.exists_ || !s.parses) && name == if s.upFile == "" then s.migration else s.upFile
  {
    var names := Map(NameOf, Filter(Unsound, statuses));
    assert name in multiset(UnsoundNames(statuses)) <==> name in multiset(names);
    CollectedMember(Unsound, NameOf, statuses, name);
  }

  method UnsoundDownMigrations(statuses: seq<DownStatus>) returns (names: seq<string>)
    ensures names == if AllSound(statuses) then ["a migration in this changeset"] else UnsoundNames(statuses)
  {
    names := [];
    for i := 0 to |statuses|
      invariant names == Map(NameOf, Filter(Unsound, statuses[..i]))
    {
      CollectStep(Unsound, NameOf, statuses, i);
      if !statuses[i].exists_ || !statuses[i].parses {
        names := names + [NameOf(statuses[i])];
      }
    }
    assert statuses[..|statuses|] == statuses;
    FilterEmpty(Unsound, statuses);
    if |names| == 0 {
      return ["a migration in this changeset"];
    }
    names := Sorting.Sort(LexLe, names);
  }

  // ---------------------------------------------------------------- the measured grade

  predicate IsCostly(f: Finding) { f.reversibility.Costly? }

  function WorstLock(findings: seq<Finding>): LockHazard {
    if findings == [] then LockNone
    else
      var n := |findings| - 1;
      var worst := WorstLock(findings[..n]);
      if findings[n].lock.AtLeast(worst) then findings[n].lock else worst
  }

  predicate HasLock(findings: seq<Finding>, atLeast: LockHazard) {
    exists f | f in findings :: f.lock.AtLeast(atLeast)
  }

  predicate HasBand(findings: seq<Finding>, band: Band) {
    exists f | f in findings :: f.context.Some? && f.context.value.band == band
  }

  predicate AllReversible(findings: seq<Finding>) {
    forall f | f in findings :: f.reversibility.Reversible?
  }

  /**
   The grade of a complete analysis nothing blocks, as a statement about which findings exist:
   no order, no running totals, no sequence of caps.
   */
  function Measured(findings: seq<Finding>, down: seq<DownStatus>): Grade {
    if Count(IsCostly, findings) >= 3 || !AllSound(down) || HasBand(findings, Outage) then GradeC
    else if !AllReversible(findings) || HasLock(findings, LockFullScan) || HasBand(findings, Disruptive) then GradeB
    else GradeA
  }

  predicate Stopped(input: ScoreInput) {
    input.failures != [] || exists f | f in input.findings :: Blocks(f)
  }

  /** The grade of a run, whatever happened to it. */
  function GradeOf(input: ScoreInput): Grade {
    if Stopped(input) then GradeF
    else match input.outcome
      case Analyzed => if input.unsupported != [] then GradeF else Measured(input.findings, input.down)
      case NoCandidates | UnsupportedContent => NotApplicable
      case OtherOutcome(_) => GradeF
  }

  // ---------------------------------------------------------------- why it is that grade

  function Assignment(findings: seq<Finding>): Grade {
    var n := Count(IsCostly, findings);
    if n >= 3 then GradeC else if n >= 1 then GradeB else GradeA
  }

  predicate HasBandCap(f: Finding) { f.context.Some? && f.context.value.band.Cap().Some? }

  function BandCap(f: Finding): Cap {
    var band := if f.context.Some? then f.context.value.band else NO_BAND;
    Cap(if band.Cap().Some? then band.Cap().value else GradeA, LockHeld(f.ruleID, f.file, f.line, band))
  }

  function Missed(allReversible: bool, worst: LockHazard, downOK: bool): seq<MissedCondition> {
    (if allReversible then [] else [NotAllReversible]) +
    (if worst.AtLeast(LockFullScan) then [WorstLockIs(worst)] else []) +
    (if downOK then [] else [DownMigrationUnsound])
  }

  function DownCaps(down: seq<DownStatus>): seq<Cap> {
    if AllSound(down) then [] else [Cap(GradeC, NoUsableDown(UnsoundNames(down)))]
  }

  function LockCaps(worst: LockHazard): seq<Cap> {
    if worst.AtLeast(LockTableRewrite) then [Cap(GradeB, HeavyLock(worst))] else []
  }

  function BandCaps(findings: seq<Finding>): seq<Cap> { Map(BandCap, Filter(HasBandCap, findings)) }

  function RowCaps(missed: seq<MissedCondition>): seq<Cap> {
    if missed == [] then [] else [Cap(GradeB, ARowMissed(missed))]
  }

  /** Every ceiling in force, in the order the source applies them. */
  function ActiveCaps(findings: seq<Finding>, down: seq<DownStatus>): seq<Cap> {
    var worst := WorstLock(findings);
    DownCaps(down) + LockCaps(worst) + BandCaps(findings) +
    RowCaps(Missed(AllReversible(findings), worst, AllSound(down)))
  }

  function CapAll(grade: Grade, caps: seq<Cap>): Grade
    decreases |caps|
  {
    if caps == [] then grade else CapAll(grade.CapAt(caps[0].limit), caps[1..])
  }

  /** A cap is worth recording only when it lowers the grade it finds. */
  function CapTrace(grade: Grade, caps: seq<Cap>): seq<Cause>
    decreases |caps|
  {
    if caps == [] then []
    else
      var capped := grade.CapAt(caps[0].limit);
      (if capped != grade then [Capped(caps[0])] else []) + CapTrace(capped, caps[1..])
  }

  function CausesOf(input: ScoreInput): seq<Cause> {
    if input.failures != [] then [DidNotComplete]
    else if exists f | f in input.findings :: Blocks(f) then [Blocked(Count(Blocks, input.findings))]
    else match input.outcome
      case NoCandidates => [NothingToClaim]
      case UnsupportedContent => [NothingReadable]
      case OtherOutcome(_) => [ShapeNotEstablished]
      case Analyzed =>
        if input.unsupported != [] then [CoverageIsPartial(|input.unsupported|)]
        else
          [Assigned(Assignment(input.findings), Count(IsCostly, input.findings))] +
          CapTrace(Assignment(input.findings), ActiveCaps(input.findings, input.down)) +
          (if GradeOf(input).GradeA? then [NothingCapped] else [])
  }

  function BlockersOf(input: ScoreInput): seq<Blocker> {
    if input.failures != [] then Map((e: string) => AnalysisIncomplete(e), input.failures)
    else if exists f | f in input.findings :: Blocks(f) then Map(BlockerFor, Filter(Blocks, input.findings))
    else match input.outcome
      case NoCandidates => []
      case UnsupportedContent => [NotAssessed(input.unsupported)]
      case OtherOutcome(_) => [RunShapeUnknown]
      case Analyzed =>
        if input.unsupported == [] then []
        else [PartialCoverage] + Map((p: string) => NotAnalyzed(p), input.unsupported)
  }

  function Scored(input: ScoreInput): ScoreResult {
    ScoreResult(GradeOf(input), BlockersOf(input), CausesOf(input))
  }

  // ---------------------------------------------------------------- facts about the parts

  lemma {:induction false} WorstLockIsMaximum(findings: seq<Finding>)
    ensures forall f | f in findings :: WorstLock(findings).AtLeast(f.lock)
    ensures WorstLock(findings) == LockNone || exists f | f in findings :: f.lock == WorstLock(findings)
  {
    if findings != [] {
      var n := |findings| - 1;
      WorstLockIsMaximum(findings[..n]);
      assert findings == findings[..n] + [findings[n]];
      assert findings[n] in findings;
    }
  }

  lemma WorstLockReaches(findings: seq<Finding>, level: LockHazard)
    requires level.Severity() > 0
    ensures WorstLock(findings).AtLeast(level) <==> HasLock(findings, level)
  {
    WorstLockIsMaximum(findings);
  }

  /** The ceilings applied one by one reach the worst of the assignment and every limit. */
  lemma {:induction false} CapAllIsMinimum(grade: Grade, caps: seq<Cap>)
    ensures CapAll(grade, caps).Rank() <= grade.Rank()
    ensures forall c | c in caps :: CapAll(grade, caps).Rank() <= c.limit.Rank()
    ensures CapAll(grade, caps) == grade || exists c | c in caps :: CapAll(grade, caps) == c.limit
    decreases |caps|
  {
    if caps != [] {
      CapAllIsMinimum(grade.CapAt(caps[0].limit), caps[1..]);
      assert caps == [caps[0]] + caps[1..];
    }
  }

  /** So the order in which ceilings are applied cannot matter. */
  lemma CapOrderIrrelevant(grade: Grade, caps: seq<Cap>, reordered: seq<Cap>)
    requires grade.Threshold() && forall c | c in caps :: c.limit.Threshold()
    requires multiset(caps) == multiset(reordered)
    ensures CapAll(grade, caps) == CapAll(grade, reordered)
  {
    forall c ensures c in caps <==> c in reordered {
      assert c in multiset(caps) <==> c in multiset(reordered);
    }
    CapAllIsMinimum(grade, caps);
    CapAllIsMinimum(grade, reordered);
  }

  lemma {:induction false} CapAllConcat(grade: Grade, a: seq<Cap>, b: seq<Cap>)
    ensures CapAll(grade, a + b) == CapAll(CapAll(grade, a), b)
    ensures CapTrace(grade, a + b) == CapTrace(grade, a) + CapTrace(CapAll(grade, a), b)
    decreases |a|
  {
    if a == [] {
      assert a + b == b;
    } else {
      var next := grade.CapAt(a[0].limit);
      var here := if next == grade then [] else [Capped(a[0])];
      assert (a + b)[1..] == a[1..] + b;
      CapAllConcat(next, a[1..], b);
      Regroup(here, CapTrace(next, a[1..]), CapTrace(CapAll(next, a[1..]), b));
    }
  }

  lemma Regroup<T>(a: seq<T>, b: seq<T>, c: seq<T>)
    ensures a + (b + c) == (a + b) + c
  {
  }

  predicate Limits(caps: seq<Cap>, grade: Grade) { exists c | c in caps :: c.limit == grade }

  lemma LimitsConcat(a: seq<Cap>, b: seq<Cap>, grade: Grade)
    ensures Limits(a + b, grade) <==> Limits(a, grade) || Limits(b, grade)
  {
    forall c ensures c in a + b <==> c in a || c in b {}
  }

  lemma BandCapsAre(findings: seq<Finding>, c: Cap)
    ensures c in BandCaps(findings) <==> exists f | f in findings :: HasBandCap(f) && c == BandCap(f)
  {
    var kept := Filter(HasBandCap, findings);
    var caps := Map(BandCap, kept);
    if c in caps {
      var i :| 0 <= i < |caps| && caps[i] == c;
      FilterMember(HasBandCap, findings, kept[i]);
    }
    if f :| f in findings && HasBandCap(f) && c == BandCap(f) {
      FilterMember(HasBandCap, findings, f);
      var i :| 0 <= i < |kept| && kept[i] == f;
      assert caps[i] == c;
    }
  }

  lemma BandLimits(findings: seq<Finding>)
    ensures var caps := BandCaps(findings);
            && (Limits(caps, GradeC) <==> HasBand(findings, Outage))
            && (Limits(caps, GradeB) <==> HasBand(findings, Disruptive))
            && (forall c | c in caps :: c.limit == GradeB || c.limit == GradeC)
  {
    var caps := BandCaps(findings);
    forall c | c in caps ensures exists f | f in findings :: HasBandCap(f) && c == BandCap(f) {
      BandCapsAre(findings, c);
    }
    forall f | f in findings && HasBandCap(f) ensures BandCap(f) in caps {
      BandCapsAre(findings, BandCap(f));
    }
  }

  lemma CapLimits(findings: seq<Finding>, down: seq<DownStatus>)
    ensures var caps := ActiveCaps(findings, down);
            && (Limits(caps, GradeC) <==> !AllSound(down) || HasBand(findings, Outage))
            && (Limits(caps, GradeB) <==> !AllReversible(findings) || HasLock(findings, LockFullScan)
                                          || !AllSound(down) || HasBand(findings, Disruptive))
            && (forall c | c in caps :: c.limit == GradeB || c.limit == GradeC)
  {
    var worst := WorstLock(findings);
    WorstLockReaches(findings, LockFullScan);
    WorstLockReaches(findings, LockTableRewrite);
    var missed := Missed(AllReversible(findings), worst, AllSound(down));
    BandLimits(findings);
    SimpleLimits(down, worst, missed);
    LimitsAcross(DownCaps(down), LockCaps(worst), BandCaps(findings), RowCaps(missed), GradeB);
    LimitsAcross(DownCaps(down), LockCaps(worst), BandCaps(findings), RowCaps(missed), GradeC);
  }

  lemma SimpleLimits(down: seq<DownStatus>, worst: LockHazard, missed: seq<MissedCondition>)
    ensures (Limits(DownCaps(down), GradeC) <==> !AllSound(down)) && !Limits(DownCaps(down), GradeB)
    ensures (Limits(LockCaps(worst), GradeB) <==> worst.AtLeast(LockTableRewrite)) && !Limits(LockCaps(worst), GradeC)
    ensures (Limits(RowCaps(missed), GradeB) <==> missed != []) && !Limits(RowCaps(missed), GradeC)
    ensures forall c | c in DownCaps(down) + LockCaps(worst) + RowCaps(missed) :: c.limit == GradeB || c.limit == GradeC
  {
    assert !AllSound(down) ==> DownCaps(down)[0] in DownCaps(down);
    assert missed != [] ==> RowCaps(missed)[0] in RowCaps(missed);
    assert LockCaps(worst) != [] ==> LockCaps(worst)[0] in LockCaps(worst);
  }

  lemma LimitsAcross(a: seq<Cap>, b: seq<Cap>, c: seq<Cap>, d: seq<Cap>, grade: Grade)
    ensures Limits(a + b + c + d, grade) <==>
            Limits(a, grade) || Limits(b, grade) || Limits(c, grade) || Limits(d, grade)
  {
    LimitsConcat(a + b + c, d, grade);
    LimitsConcat(a + b, c, grade);
    LimitsConcat(a, b, grade);
  }

  lemma NotAllReversibleIsCostly(findings: seq<Finding>)
    requires forall f | f in findings :: !Blocks(f)
    ensures AllReversible(findings) <==> Count(IsCostly, findings) == 0
  {
    FilterEmpty(IsCostly, findings);
  }

  /** The assignment followed by every active ceiling is the grade stated directly. */
  lemma MeasuredIsCapped(findings: seq<Finding>, down: seq<DownStatus>)
    requires forall f | f in findings :: !Blocks(f)
    ensures CapAll(Assignment(findings), ActiveCaps(findings, down)) == Measured(findings, down)
  {
    CapLimits(findings, down);
    CapAllIsMinimum(Assignment(findings), ActiveCaps(findings, down));
    NotAllReversibleIsCostly(findings);
  }

  // ---------------------------------------------------------------- score

  /** Where scoring stands after the ceilings in `caps`: the grade reached and the record of it. */
  ghost predicate Reached(start: Grade, first: Cause, caps: seq<Cap>, grade: Grade, causes: seq<Cause>) {
    grade == CapAll(start, caps) && causes == [first] + CapTrace(start, caps)
  }

  method ApplyCap(
    grade: Grade, causes: seq<Cause>, cap: Cap, ghost start: Grade, ghost first: Cause, ghost caps: seq<Cap>)
    returns (lowered: Grade, recorded: seq<Cause>)
    requires Reached(start, first, caps, grade, causes)
    ensures Reached(start, first, caps + [cap], lowered, recorded)
  {
    CapAllConcat(start, caps, [cap]);
    lowered, recorded := grade.CapAt(cap.limit), causes;
    if lowered != grade {
      recorded := recorded + [Capped(cap)];
    }
  }

  method Score(input: ScoreInput) returns (r: ScoreResult)
    ensures r == Scored(input)
  {
    if |input.failures| > 0 {
      return ScoreResult(GradeF, Map((e: string) => AnalysisIncomplete(e), input.failures), [DidNotComplete]);
    }
    var blockers := BlockingFindings(input.findings);
    FilterEmpty(Blocks, input.findings);
    if |blockers| > 0 {
      return ScoreResult(GradeF, blockers, [Blocked(|blockers|)]);
    }
    match input.outcome {
      case Analyzed =>
        if |input.unsupported| > 0 {
          return ScoreResult(GradeF, [PartialCoverage] + Map((p: string) => NotAnalyzed(p), input.unsupported),
                             [CoverageIsPartial(|input.unsupported|)]);
        }
      case NoCandidates =>
        return ScoreResult(NotApplicable, [], [NothingToClaim]);
      case UnsupportedContent =>
        return ScoreResult(NotApplicable, [NotAssessed(input.unsupported)], [NothingReadable]);
      case OtherOutcome(_) =>
        return ScoreResult(GradeF, [RunShapeUnknown], [ShapeNotEstablished]);
    }
    r := Measure(input.findings, input.down);
  }

  lemma TallyStep(findings: seq<Finding>, i: nat)
    requires i < |findings|
    ensures Count(IsCostly, findings[..i + 1]) ==
            Count(IsCostly, findings[..i]) + (if findings[i].reversibility == Costly then 1 else 0)
    ensures AllReversible(findings[..i + 1]) <==>
            AllReversible(findings[..i]) && findings[i].reversibility == Reversible
    ensures WorstLock(findings[..i + 1]) ==
            if findings[i].lock.AtLeast(WorstLock(findings[..i])) then findings[i].lock else WorstLock(findings[..i])
  {
    FilterStep(IsCostly, findings, i);
    assert findings[..i + 1] == findings[..i] + [findings[i]];
    assert findings[..i + 1][..i] == findings[..i];
  }

  method Tally(findings: seq<Finding>) returns (costly: nat, allReversible: bool, worstLock: LockHazard)
    ensures costly == Count(IsCostly, findings)
    ensures allReversible == AllReversible(findings)
    ensures worstLock == WorstLock(findings)
  {
    costly, allReversible, worstLock := 0, true, LockNone;
    for i := 0 to |findings|
      invariant costly == Count(IsCostly, findings[..i])
      invariant allReversible == AllReversible(findings[..i])
      invariant worstLock == WorstLock(findings[..i])
    {
      var f := findings[i];
      TallyStep(findings, i);
      if f.reversibility == Costly {
        costly := costly + 1;
      }
      if f.reversibility != Reversible {
        allReversible := false;
      }
      if f.lock.AtLeast(worstLock) {
        worstLock := f.lock;
      }
    }
    assert findings[..|findings|] == findings;
  }

  method ApplyBands(grade: Grade, causes: seq<Cause>, findings: seq<Finding>,
                    ghost start: Grade, ghost first: Cause, ghost caps: seq<Cap>)
    returns (lowered: Grade, recorded: seq<Cause>)
    requires Reached(start, first, caps, grade, causes)
    ensures Reached(start, first, caps + BandCaps(findings), lowered, recorded)
  {
    lowered, recorded := grade, causes;
    assert caps + BandCaps(findings[..0]) == caps;
    for i := 0 to |findings|
      invariant Reached(start, first, caps + BandCaps(findings[..i]), lowered, recorded)
    {
      var f := findings[i];
      CollectStep(HasBandCap, BandCap, findings, i);
      ghost var done := caps + BandCaps(findings[..i]);
      assert caps + BandCaps(findings[..i + 1]) == if HasBandCap(f) then done + [BandCap(f)] else done;
      if f.context.None? {
        continue;
      }
      var limit := f.context.value.band.Cap();
      if limit.Some? {
        var cap := Cap(limit.value, LockHeld(f.ruleID, f.file, f.line, f.context.value.band));
        lowered, recorded := ApplyCap(lowered, recorded, cap, start, first, done);
      }
    }
    assert findings[..|findings|] == findings;
  }

  /** Every ceiling the measurements put in force, one after another. */
  method ApplyCeilings(start: Grade, first: Cause, findings: seq<Finding>, down: seq<DownStatus>,
                       allReversible: bool, worstLock: LockHazard)
    returns (grade: Grade, causes: seq<Cause>)
    requires allReversible == AllReversible(findings) && worstLock == WorstLock(findings)
    ensures Reached(start, first, ActiveCaps(findings, down), grade, causes)
  {
    grade, causes := start, [first];
    var downOK := DownMigrationsAreSound(down);
    if !downOK {
      var names := UnsoundDownMigrations(down);
      grade, causes := ApplyCap(grade, causes, Cap(GradeC, NoUsableDown(names)), start, first, []);
      assert [] + [Cap(GradeC, NoUsableDown(names))] == DownCaps(down);
    }
    ghost var a := DownCaps(down);
    assert Reached(start, first, a, grade, causes);

    ghost var b := a + LockCaps(worstLock);
    if worstLock.AtLeast(LockTableRewrite) {
      grade, causes := ApplyCap(grade, causes, Cap(GradeB, HeavyLock(worstLock)), start, first, a);
    }
    assert b == if worstLock.AtLeast(LockTableRewrite) then a + [Cap(GradeB, HeavyLock(worstLock))] else a;

    grade, causes := ApplyBands(grade, causes, findings, start, first, b);
    ghost var c := b + BandCaps(findings);

    var missed := FailedARowConditions(allReversible, worstLock, downOK);
    if !allReversible || worstLock.AtLeast(LockFullScan) || !downOK {
      grade, causes := ApplyCap(grade, causes, Cap(GradeB, ARowMissed(missed)), start, first, c);
    }
    assert c + RowCaps(missed) == if missed == [] then c else c + [Cap(GradeB, ARowMissed(missed))];
  }

  /** The part of scoring that measures: one fold, an assignment, then the ceilings. */
  method Measure(findings: seq<Finding>, down: seq<DownStatus>) returns (r: ScoreResult)
    requires forall f | f in findings :: !Blocks(f)
    ensures r == Scored(ScoreInput(findings, down, [], Analyzed, []))
  {
    var costly, allReversible, worstLock := Tally(findings);
    var grade := GradeA;
    if costly >= 3 {
      grade := GradeC;
    } else if costly >= 1 {
      grade := GradeB;
    }
    var first := Assigned(grade, costly);
    var causes;
    grade, causes := ApplyCeilings(grade, first, findings, down, allReversible, worstLock);
    MeasuredScore(findings, down, grade, causes);
    if grade == GradeA {
      causes := causes + [NothingCapped];
    }
    r := ScoreResult(grade, [], causes);
  }

  lemma MeasuredScore(findings: seq<Finding>, down: seq<DownStatus>, grade: Grade, causes: seq<Cause>)
    requires forall f | f in findings :: !Blocks(f)
    requires Reached(Assignment(findings), Assigned(Assignment(findings), Count(IsCostly, findings)),
                     ActiveCaps(findings, down), grade, causes)
    ensures Scored(ScoreInput(findings, down, [], Analyzed, [])) ==
            ScoreResult(grade, [], if grade == GradeA then causes + [NothingCapped] else causes)
  {
    MeasuredIsCapped(findings, down);
    assert causes + [] == causes;
  }

  method FailedARowConditions(allReversible: bool, worst: LockHazard, downOK: bool)
    returns (missed: seq<MissedCondition>)
    ensures missed == Missed(allReversible, worst, downOK)
  {
    missed := [];
    if !allReversible {
      missed := missed + [NotAllReversible];
    }
    if worst.AtLeast(LockFullScan) {
      missed := missed + [WorstLockIs(worst)];
    }
    if !downOK {
      missed := missed + [DownMigrationUnsound];
    }
  }

  // ---------------------------------------------------------------- what the causes say

  /**
   The causes replay: starting at `from`, every recorded ceiling strictly lowers the grade
   reached so far, and the last one lands on `to`.
   */
  ghost predicate Replays(from: Grade, causes: seq<Cause>, to: Grade)
    decreases |causes|
  {
    if causes == [] then from == to
    else causes[0].Capped? && causes[0].cap.limit.Rank() < from.Rank()
         && Replays(causes[0].cap.limit, causes[1..], to)
  }

  lemma {:induction false} TraceReplays(grade: Grade, caps: seq<Cap>)
    ensures Replays(grade, CapTrace(grade, caps), CapAll(grade, caps))
    ensures forall c | c in CapTrace(grade, caps) :: c.Capped? && c.cap in caps
    decreases |caps|
  {
    if caps != [] {
      TraceReplays(grade.CapAt(caps[0].limit), caps[1..]);
      var trace := CapTrace(grade, caps);
      if grade.CapAt(caps[0].limit) != grade {
        assert trace[1..] == CapTrace(grade.CapAt(caps[0].limit), caps[1..]);
      } else {
        assert trace == CapTrace(grade, caps[1..]);
      }
      assert caps == [caps[0]] + caps[1..];
    }
  }

  /**
   A measured grade explains itself: the first cause is the assignment, each later one is a
   ceiling in force that lowered the grade, and following them ends at the grade returned.
   */
  lemma CausesExplainGrade(input: ScoreInput)
    requires !Stopped(input) && input.outcome.Analyzed? && input.unsupported == []
    ensures var r := Scored(input);
            var steps := if r.grade.GradeA? then r.causes[1..|r.causes| - 1] else r.causes[1..];
            && r.causes[0] == Assigned(Assignment(input.findings), Count(IsCostly, input.findings))
            && Replays(Assignment(input.findings), steps, r.grade)
            && (forall c | c in steps :: c.Capped? && c.cap in ActiveCaps(input.findings, input.down))
            && (r.grade.GradeA? <==> r.causes[|r.causes| - 1] == NothingCapped)
  {
    var start, caps := Assignment(input.findings), ActiveCaps(input.findings, input.down);
    MeasuredIsCapped(input.findings, input.down);
    TraceReplays(start, caps);
    var trace := CapTrace(start, caps);
    var head := Assigned(start, Count(IsCostly, input.findings));
    var tail := if GradeOf(input).GradeA? then [NothingCapped] else [];
    assert CausesOf(input) == [head] + trace + tail;
    CausesParts(head, trace, tail);
  }

  lemma CausesParts(head: Cause, trace: seq<Cause>, tail: seq<Cause>)
    requires head.Assigned? && forall c | c in trace :: c.Capped?
    requires tail == [] || tail == [NothingCapped]
    ensures var all := [head] + trace + tail;
      && all[0] == head
      && (if tail == [] then all[1..] else all[1..|all| - 1]) == trace
      && (tail != [] <==> all[|all| - 1] == NothingCapped)
  {
    var all := [head] + trace + tail;
    assert (if tail == [] then all[1..] else all[1..|all| - 1]) == trace;
    LastCause(head, trace, tail);
  }

  lemma LastCause(head: Cause, trace: seq<Cause>, tail: seq<Cause>)
    requires head.Assigned? && forall c | c in trace :: c.Capped?
    requires tail == [] || tail == [NothingCapped]
    ensures var all := [head] + trace + tail; tail != [] <==> all[|all| - 1] == NothingCapped
  {
    if tail == [] {
      assert [head] + trace + tail == [head] + trace;
      assert trace != [] ==> trace[|trace| - 1] in trace;
    }
  }
}
