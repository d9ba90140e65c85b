/** The rollback plan: the undo steps of the findings, last change first, or why there is none. */
module Undo {
  import opened Text
  import opened Domain
  import opened Dominance
  import opened Scorer
  import Sorting

  datatype Why = CannotBeUndone | NotUnderstood | NeverApplies

  datatype PlanLine =
    | NoCompleteUndo
    | FollowingHaveNoReverse
    | HasNoReverse(rule: string, file: string, line: int, statement: string, why: Why)
    | Run(step: UndoStep)

  predicate LeavesNoUndo(f: Finding) {
    f.reversibility.Irreversible? || f.reversibility.Unknown? || f.reversibility.WillFail?
  }

  function StatementOf(f: Finding): string {
    if f.statement == "" then "(statement unavailable)" else f.statement
  }

  function WhyNot(f: Finding): PlanLine {
    var why := match f.reversibility
               case Irreversible => CannotBeUndone
               case Unknown => NotUnderstood
               case _ => NeverApplies;
    HasNoReverse(f.ruleID, f.file, f.line, StatementOf(f), why)
  }

  predicate HasStep(f: Finding) { f.undo != NoUndo }

  function StepOf(f: Finding): PlanLine { Run(f.undo) }

  function Reversed<T>(xs: seq<T>): (r: seq<T>)
    ensures |r| == |xs|
  {
    if xs == [] then [] else Reversed(xs[1..]) + [xs[0]]
  }

  function Blocked(findings: seq<Finding>): seq<PlanLine> {
    if Filter(LeavesNoUndo, findings) == [] then []
    else [NoCompleteUndo, FollowingHaveNoReverse] + Map(WhyNot, Filter(LeavesNoUndo, findings))
  }

  function PlanOf(findings: seq<Finding>): seq<PlanLine> {
    if Blocked(findings) != [] then Blocked(findings)
    else Reversed(Map(StepOf, Filter(HasStep, findings)))
  }

  method UnreversibleFindings(findings: seq<Finding>) returns (plan: seq<PlanLine>)
    ensures plan == Blocked(findings)
  {
    var blocked: seq<PlanLine> := [];
    for i := 0 to |findings|
      invariant blocked == Map(WhyNot, Filter(LeavesNoUndo, findings[..i]))
    {
      var f := findings[i];
      CollectStep(LeavesNoUndo, WhyNot, findings, i);
      var why;
      match f.reversibility {
        case Irreversible => why := CannotBeUndone;
        case Unknown => why := NotUnderstood;
        case WillFail => why := NeverApplies;
        case _ => continue;
      }
      blocked := blocked + [HasNoReverse(f.ruleID, f.file, f.line, StatementOf(f), why)];
    }
    assert findings[..|findings|] == findings;
    if |blocked| == 0 {
      return [];
    }
    return [NoCompleteUndo, FollowingHaveNoReverse] + blocked;
  }

  method BuildUndoPlan(findings: seq<Finding>) returns (plan: seq<PlanLine>)
    ensures plan == PlanOf(findings)
  {
    var blockers := UnreversibleFindings(findings);
    if |blockers| > 0 {
      return blockers;
    }
    plan := [];
    var i := |findings|;
    while i > 0
      invariant 0 <= i <= |findings|
      invariant plan == Reversed(Map(StepOf, Filter(HasStep, findings[i..])))
    {
      i := i - 1;
      assert findings[i..][1..] == findings[i + 1..];
      ghost var later := Filter(HasStep, findings[i + 1..]);
      assert ([findings[i]] + later)[1..] == later;
      assert Filter(HasStep, findings[i..]) == if HasStep(findings[i]) then [findings[i]] + later else later;
      if findings[i].undo != NoUndo {
        plan := plan + [Run(findings[i].undo)];
      }
    }
    assert findings[0..] == findings;
  }

  // ---------------------------------------------------------------- running it

  function ApplyAll<S>(apply: (Finding, S) -> S, findings: seq<Finding>, s: S): S
    decreases |findings|
  {
    if findings == [] then s else ApplyAll(apply, findings[1..], apply(findings[0], s))
  }

  /** Lines that are not steps are comments: running the plan skips them. */
  function RunAll<S>(run: (UndoStep, S) -> S, plan: seq<PlanLine>, s: S): S
    decreases |plan|
  {
    if plan == [] then s
    else RunAll(run, plan[1..], if plan[0].Run? then run(plan[0].step, s) else s)
  }

  lemma {:induction false} RunConcat<S>(run: (UndoStep, S) -> S, a: seq<PlanLine>, b: seq<PlanLine>, s: S)
    ensures RunAll(run, a + b, s) == RunAll(run, b, RunAll(run, a, s))
    decreases |a|
  {
    if a == [] {
      assert a + b == b;
    } else {
      assert (a + b)[1..] == a[1..] + b;
      RunConcat(run, a[1..], b, if a[0].Run? then run(a[0].step, s) else s);
    }
  }

  /** Each finding's step takes back that finding's change, in the state the change was made in. */
  ghost predicate Inverts<S>(apply: (Finding, S) -> S, run: (UndoStep, S) -> S, findings: seq<Finding>, s: S)
    decreases |findings|
  {
    findings != [] ==>
      && findings[0].undo != NoUndo
      && run(findings[0].undo, apply(findings[0], s)) == s
      && Inverts(apply, run, findings[1..], apply(findings[0], s))
  }

  lemma {:induction false} StepsUnwind<S>(
    apply: (Finding, S) -> S, run: (UndoStep, S) -> S, findings: seq<Finding>, s: S)
    requires Inverts(apply, run, findings, s)
    ensures RunAll(run, Reversed(Map(StepOf, Filter(HasStep, findings))), ApplyAll(apply, findings, s)) == s
    decreases |findings|
  {
    if findings != [] {
      var rest := Map(StepOf, Filter(HasStep, findings[1..]));
      var s1 := apply(findings[0], s);
      StepsUnwind(apply, run, findings[1..], s1);
      var all := Map(StepOf, Filter(HasStep, findings));
      assert all == [StepOf(findings[0])] + rest;
      assert all[1..] == rest;
      RunConcat(run, Reversed(rest), [StepOf(findings[0])], ApplyAll(apply, findings[1..], s1));
    }
  }

  /**
   The plan unwinds the change. Whatever the state is, when no finding leaves nothing to undo and
   every step takes back its own change, running the plan built from the findings in any order
   returns to where the changes started, provided place alone tells application order.
   */
  lemma PlanUnwinds<S>(
    apply: (Finding, S) -> S, run: (UndoStep, S) -> S, applied: seq<Finding>, found: seq<Finding>, s: S)
    requires multiset(found) == multiset(applied)
    requires forall i, j | 0 <= i < j < |applied| :: PlacedBefore(applied[i], applied[j])
    requires forall f | f in applied :: !LeavesNoUndo(f)
    requires Inverts(apply, run, applied, s)
    ensures RunAll(run, PlanOf(Sorting.Sort(FindingLe, found)), ApplyAll(apply, applied, s)) == s
  {
    SortRestoresApplicationOrder(applied, found);
    FilterEmpty(LeavesNoUndo, applied);
    StepsUnwind(apply, run, applied, s);
  }

  lemma FindingOrder()
    ensures Sorting.TotalPreorder(FindingLe)
  {
    forall a: Finding, b: Finding ensures FindingLe(a, b) || FindingLe(b, a) {
      FindingLeTotal(a, b);
    }
    forall a: Finding, b: Finding, c: Finding | FindingLe(a, b) && FindingLe(b, c) ensures FindingLe(a, c) {
      FindingLeTransitive(a, b, c);
    }
  }

  /** The canonical sort is application order whenever file and line strictly increase along it. */
  lemma SortRestoresApplicationOrder(applied: seq<Finding>, found: seq<Finding>)
    requires multiset(found) == multiset(applied)
    requires forall i, j | 0 <= i < j < |applied| :: PlacedBefore(applied[i], applied[j])
    ensures Sorting.Sort(FindingLe, found) == applied
  {
    FindingOrder();
    assert Sorting.Sorted(FindingLe, applied);
    forall x, y | x in applied && y in applied && FindingLe(x, y) && FindingLe(y, x) ensures x == y {
      var i :| 0 <= i < |applied| && applied[i] == x;
      var j :| 0 <= j < |applied| && applied[j] == y;
      if i != j {
        assert PlacedBefore(x, y) || PlacedBefore(y, x);
        if x.file != y.file {
          LexAntisymmetric(x.file, y.file);
        }
      }
    }
    Sorting.SortIgnoresOrder(FindingLe, applied, found);
    Sorting.SortFixed(FindingLe, applied);
  }

  // ---------------------------------------------------------------- when it is complete

  /** The freest reading of a change: it stacks up, and only its own step takes the top one off. */
  function Push(f: Finding, stack: seq<Finding>): seq<Finding> { [f] + stack }

  function PopOwn(step: UndoStep, stack: seq<Finding>): seq<Finding> {
    if stack != [] && stack[0].undo == step then stack[1..] else stack
  }

  lemma {:induction false} EachStepPopsOne(plan: seq<PlanLine>, stack: seq<Finding>)
    ensures |RunAll(PopOwn, plan, stack)| >= |stack| - |plan|
    decreases |plan|
  {
    if plan != [] {
      EachStepPopsOne(plan[1..], if plan[0].Run? then PopOwn(plan[0].step, stack) else stack);
    }
  }

  lemma {:induction false} PushAll(findings: seq<Finding>, stack: seq<Finding>)
    ensures |ApplyAll(Push, findings, stack)| == |findings| + |stack|
    ensures (forall f | f in findings :: f.undo != NoUndo) ==> Inverts(Push, PopOwn, findings, stack)
    decreases |findings|
  {
    if findings != [] {
      PushAll(findings[1..], Push(findings[0], stack));
      assert Push(findings[0], stack)[1..] == stack;
    }
  }

  lemma {:induction false} CommentsChangeNothing<S>(run: (UndoStep, S) -> S, plan: seq<PlanLine>, s: S)
    requires forall l | l in plan :: !l.Run?
    ensures RunAll(run, plan, s) == s
    decreases |plan|
  {
    if plan != [] {
      CommentsChangeNothing(run, plan[1..], s);
    }
  }

  lemma {:induction false} MissingStepIsShort(findings: seq<Finding>, f: Finding)
    requires f in findings && f.undo == NoUndo
    ensures |Filter(HasStep, findings)| < |findings|
  {
    if findings[0] != f {
      MissingStepIsShort(findings[1..], f);
    }
  }

  /**
   The plan is complete exactly when every finding can be undone and says how. A COSTLY finding
   without a step is left out of the plan with nothing in the plan to say so.
   */
  lemma PlanCompleteExactly(findings: seq<Finding>)
    ensures RunAll(PopOwn, PlanOf(findings), ApplyAll(Push, findings, [])) == [] <==>
            forall f | f in findings :: !LeavesNoUndo(f) && f.undo != NoUndo
  {
    var stack := ApplyAll(Push, findings, []);
    PushAll(findings, []);
    FilterEmpty(LeavesNoUndo, findings);
    if Blocked(findings) != [] {
      CommentsChangeNothing(PopOwn, PlanOf(findings), stack);
      assert |stack| == |findings| > 0;
    } else if f :| f in findings && f.undo == NoUndo {
      MissingStepIsShort(findings, f);
      EachStepPopsOne(PlanOf(findings), stack);
    } else {
      StepsUnwind(Push, PopOwn, findings, []);
    }
  }

  /**
   What a plan that cannot be complete says instead: one line for every finding that is IRREVERSIBLE,
   UNKNOWN or bound to fail, with its place, its statement and which of the three it is.
   */
  lemma PlanExplains(findings: seq<Finding>, rule: string, file: string, line: int, statement: string, why: Why)
    ensures HasNoReverse(rule, file, line, statement, why) in PlanOf(findings) <==> exists f | f in findings ::
      && f.ruleID == rule && f.file == file && f.line == line
      && statement == (if f.statement == "" then "(statement unavailable)" else f.statement)
      && (why.CannotBeUndone? <==> f.reversibility.Irreversible?)
      && (why.NotUnderstood? <==> f.reversibility.Unknown?)
      && (why.NeverApplies? <==> f.reversibility.WillFail?)
  {
    CollectedMember(LeavesNoUndo, WhyNot, findings, HasNoReverse(rule, file, line, statement, why));
    StepsAreRuns(Filter(HasStep, findings));
    FilterEmpty(LeavesNoUndo, findings);
  }

  /**
   The plan admits defeat exactly when scoring names a blocker, unless the only blocking verdicts
   are ones nobody defined: scoring refuses those and the plan does not notice them.
   */
  lemma HeaderMatchesBlockers(findings: seq<Finding>)
    ensures var admits := PlanOf(findings) != [] && PlanOf(findings)[0] == NoCompleteUndo;
            var blocks := exists f | f in findings :: Blocks(f);
      (admits <==> blocks) <==>
        (forall f | f in findings :: f.reversibility.Valid()) || exists f | f in findings :: LeavesNoUndo(f)
  {
    FilterEmpty(LeavesNoUndo, findings);
    var plan := PlanOf(findings);
    if Blocked(findings) == [] {
      StepsAreRuns(Filter(HasStep, findings));
      assert plan != [] ==> plan[0] in plan;
      assert forall f | f in findings :: Blocks(f) <==> !f.reversibility.Valid();
      if f :| f in findings && !f.reversibility.Valid() {
        assert Blocks(f);
      }
    } else {
      var f :| f in findings && LeavesNoUndo(f);
      assert Blocks(f);
    }
  }

  lemma {:induction false} StepsAreRuns(findings: seq<Finding>)
    ensures forall l | l in Reversed(Map(StepOf, findings)) :: l.Run?
  {
    if findings != [] {
      StepsAreRuns(findings[1..]);
      assert Map(StepOf, findings)[1..] == Map(StepOf, findings[1..]);
    }
  }
}
