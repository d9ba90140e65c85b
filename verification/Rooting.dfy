/**
 Naming a directory, or its parent and the directory, is the same run: every path-keyed decision,
 candidacy, waivers and ignored paths included, is made in one namespace.
 */
module Rooting {
  import opened Text
  import opened Domain
  import opened Dominance
  import opened Paths
  import opened Scorer
  import opened ScoreProperties
  import opened Snapshot
  import opened Policy
  import opened CoverageCheck
  import opened Certify
  import opened Pipeline
  import Glob
  import Sorting

  /** The same finding, its file named from the parent. */
  function Moved(directory: string): Finding -> Finding {
    (f: Finding) => f.(file := Below(directory, f.file))
  }

  lemma MovedOrder(directory: string, a: Finding, b: Finding)
    ensures FindingLe(Moved(directory)(a), Moved(directory)(b)) == FindingLe(a, b)
  {
    BelowKeepsOrder(directory, a.file, b.file);
    if Below(directory, a.file) == Below(directory, b.file) {
      BelowInjective(directory, a.file, b.file);
    }
  }

  lemma MovedEnriched(context: Option<SnapshotSet>, directory: string, f: Finding)
    ensures EnrichOne(context, Moved(directory)(f)) == Moved(directory)(EnrichOne(context, f))
  {
    if context.Some? {
      EnrichmentIgnoresFile(context.value, f, Below(directory, f.file));
    }
  }

  lemma MovedFate(e: Engine, directory: string, f: Finding)
    ensures Fate(e, Moved(directory)(f)).Ok? <==> Fate(e, f).Ok?
    ensures Fate(e, f).Ok? ==> Fate(e, Moved(directory)(f)).value == Moved(directory)(Fate(e, f).value)
  {
    MovedEnriched(e.context, directory, f);
    TightenedMeaning(OverridesOf(e.policy), EnrichOne(e.context, f));
    TightenedMeaning(OverridesOf(e.policy), Moved(directory)(EnrichOne(e.context, f)));
  }

  lemma MovedCovers(seg: Glob.SegmentMatcher, prefix: string, directory: string, pattern: string, file: string)
    ensures CoversIn(seg, prefix)(pattern, Below(directory, file)) ==
            CoversIn(seg, Below(prefix, directory))(pattern, file)
  {
    LocateIgnoresRootNaming(prefix, directory, file);
  }

  lemma {:induction false} MovedFirstLive(
    seg: Glob.SegmentMatcher, prefix: string, directory: string, today: int, waivers: seq<Waiver>, f: Finding)
    ensures FirstLive(CoversIn(seg, prefix), today, waivers, Moved(directory)(f)) ==
            FirstLive(CoversIn(seg, Below(prefix, directory)), today, waivers, f)
  {
    if waivers != [] {
      var n := |waivers| - 1;
      MovedFirstLive(seg, prefix, directory, today, waivers[..n], f);
      MovedCovers(seg, prefix, directory, waivers[n].path, f.file);
    }
  }

  /** The run from the parent: enumerated and ignored paths carry the directory. */
  function FromParent(supports: Supports, seg: Glob.SegmentMatcher, prefix: string, directory: string,
                      enumerated: seq<string>, ignored: seq<string>): RunConfig
  {
    RunFor(supports, seg, prefix, Under(directory, enumerated), Under(directory, ignored))
  }

  function FromDirectory(supports: Supports, seg: Glob.SegmentMatcher, prefix: string, directory: string,
                         enumerated: seq<string>, ignored: seq<string>): RunConfig
  {
    RunFor(supports, seg, Below(prefix, directory), enumerated, ignored)
  }

  // ---------------------------------------------------------------- findings

  lemma MovedResolved(e: Engine, directory: string, findings: seq<Finding>)
    requires Accepted(e, findings)
    ensures Map(Resolved(e), Sorting.Sort(FindingLe, Map(Moved(directory), findings))) ==
            Map(Moved(directory), Map(Resolved(e), Sorting.Sort(FindingLe, findings)))
  {
    var sorted := Sorting.Sort(FindingLe, findings);
    forall a, b ensures FindingLe(Moved(directory)(a), Moved(directory)(b)) == FindingLe(a, b) {
      MovedOrder(directory, a, b);
    }
    SortMapped(Moved(directory), FindingLe, FindingLe, findings);
    SortedMembers(findings);
    forall k | 0 <= k < |sorted|
      ensures Resolved(e)(Moved(directory)(sorted[k])) == Moved(directory)(Resolved(e)(sorted[k]))
    {
      assert sorted[k] in sorted;
      MovedFate(e, directory, sorted[k]);
    }
  }

  lemma MovedAccepted(e: Engine, directory: string, findings: seq<Finding>)
    ensures Accepted(e, Map(Moved(directory), findings)) <==> Accepted(e, findings)
  {
    var moved := Map(Moved(directory), findings);
    forall k | 0 <= k < |findings| ensures Fate(e, moved[k]).Ok? <==> Fate(e, findings[k]).Ok? {
      MovedFate(e, directory, findings[k]);
    }
    if Accepted(e, moved) {
      forall f | f in findings ensures Fate(e, f).Ok? {
        var k :| 0 <= k < |findings| && findings[k] == f;
        assert moved[k] in moved;
      }
    }
  }

  lemma MovedScore(directory: string, a: ScoreInput, b: ScoreInput)
    requires b.findings == Map(Moved(directory), a.findings)
    requires a.down == b.down && a.failures == b.failures && a.outcome == b.outcome
    requires a.unsupported == [] <==> b.unsupported == []
    ensures GradeOf(a) == GradeOf(b)
  {
    DominatedByImage(Worse, Moved(directory), a.findings);
    DominatedPointwise(Worse, b.findings, a.findings);
    EquallyBad(a, b);
  }

  lemma MovedRemains(
    e: Engine, supports: Supports, seg: Glob.SegmentMatcher, prefix: string, directory: string,
    enumerated: seq<string>, ignored: seq<string>, f: Finding)
    ensures Remains(e, FromParent(supports, seg, prefix, directory, enumerated, ignored))(Moved(directory)(f)) ==
            Remains(e, FromDirectory(supports, seg, prefix, directory, enumerated, ignored))(f)
  {
    MovedFirstLive(seg, prefix, directory, e.today, WaiversOf(e.policy), f);
  }

  // ---------------------------------------------------------------- the run

  lemma MovedShape(
    supports: Supports, seg: Glob.SegmentMatcher, prefix: string, directory: string,
    enumerated: seq<string>, ignored: seq<string>, files: seq<string>)
    ensures var a := ShapeOf(FromDirectory(supports, seg, prefix, directory, enumerated, ignored), files);
            var b := ShapeOf(FromParent(supports, seg, prefix, directory, enumerated, ignored), Under(directory, files));
      && a.outcome == b.outcome && (a.unsupported == [] <==> b.unsupported == [])
      && a.ignoredCandidates == b.ignoredCandidates
  {
    var existing := if enumerated == [] then files else enumerated;
    NamingTheDirectoryChangesNothing(supports, prefix, directory, files, existing);
    MovedIgnored(supports, prefix, directory, ignored);
  }

  lemma CountSorted(p: string -> bool, xs: seq<string>)
    ensures Count(p, Sorting.Sort(LexLe, xs)) == Count(p, xs)
  {
    FilterPermutes(p, Sorting.Sort(LexLe, xs), xs);
    assert |multiset(Filter(p, xs))| == |Filter(p, xs)|;
  }

  lemma MovedIgnored(supports: Supports, prefix: string, directory: string, ignored: seq<string>)
    ensures Count(CandidateAt(SiteFor(supports, Below(prefix, directory))), Sorting.Sort(LexLe, ignored)) ==
            Count(CandidateAt(SiteFor(supports, prefix)), Sorting.Sort(LexLe, Under(directory, ignored)))
  {
    var p, q := CandidateAt(SiteFor(supports, Below(prefix, directory))), CandidateAt(SiteFor(supports, prefix));
    var under := (path: string) => Below(directory, path);
    CountSorted(p, ignored);
    CountSorted(q, Under(directory, ignored));
    forall path | path in ignored ensures q(under(path)) == p(path) {
      LocateIgnoresRootNaming(prefix, directory, path);
    }
    FilterMapped(under, p, q, ignored);
  }

  /** The parts of a certificate that do not mention a path. */
  predicate SameVerdict(a: Certificate, b: Certificate) {
    && a.grade == b.grade && a.effective == b.effective && a.gate == b.gate
    && a.outcome == b.outcome && a.coverage == b.coverage
  }

  /**
   Pointing the tool at a directory, or at its parent with everything named from there, gives the
   same grade, effective grade, gate, outcome and coverage, waiver patterns and ignored paths
   included.
   */
  lemma NamingTheDirectoryKeepsVerdict(
    e: Engine, supports: Supports, seg: Glob.SegmentMatcher, prefix: string, directory: string,
    enumerated: seq<string>, ignored: seq<string>, files: seq<string>, evidence: Evidence)
    ensures SameVerdict(
              Certified(e, FromDirectory(supports, seg, prefix, directory, enumerated, ignored), files, evidence),
              Certified(e, FromParent(supports, seg, prefix, directory, enumerated, ignored), Under(directory, files),
                        evidence.(findings := Map(Moved(directory), evidence.findings))))
  {
    var a := FromDirectory(supports, seg, prefix, directory, enumerated, ignored);
    var b := FromParent(supports, seg, prefix, directory, enumerated, ignored);
    MovedShape(supports, seg, prefix, directory, enumerated, ignored, files);
    forall f ensures Remains(e, b)(Moved(directory)(f)) == Remains(e, a)(f) {
      MovedRemains(e, supports, seg, prefix, directory, enumerated, ignored, f);
    }
    MovedVerdict(e, directory, a, files, b, Under(directory, files), evidence);
  }

  lemma MovedVerdict(
    e: Engine, directory: string, a: RunConfig, files: seq<string>, b: RunConfig, files': seq<string>, evidence: Evidence)
    requires ShapeOf(a, files).outcome == ShapeOf(b, files').outcome
    requires ShapeOf(a, files).unsupported == [] <==> ShapeOf(b, files').unsupported == []
    requires ShapeOf(a, files).ignoredCandidates == ShapeOf(b, files').ignoredCandidates
    requires forall f :: Remains(e, b)(Moved(directory)(f)) == Remains(e, a)(f)
    ensures SameVerdict(Certified(e, a, files, evidence),
                        Certified(e, b, files', evidence.(findings := Map(Moved(directory), evidence.findings))))
  {
    var moved := evidence.(findings := Map(Moved(directory), evidence.findings));
    MovedAccepted(e, directory, evidence.findings);
    GradeOfRun(e, a, files, evidence);
    GradeOfRun(e, b, files', moved);
    EffectiveOfRun(e, a, files, evidence);
    EffectiveOfRun(e, b, files', moved);
    if Accepted(e, evidence.findings) {
      MovedResolved(e, directory, evidence.findings);
      var all := Map(Resolved(e), Sorting.Sort(FindingLe, evidence.findings));
      FilterMapped(Moved(directory), Remains(e, a), Remains(e, b), all);
      MovedGrades(directory, ShapeOf(a, files), ShapeOf(b, files'), evidence, moved, all, Filter(Remains(e, a), all));
    }
  }

  lemma MovedGrades(
    directory: string, a: Shape, b: Shape, evidence: Evidence, moved: Evidence, all: seq<Finding>, rest: seq<Finding>)
    requires a.outcome == b.outcome && (a.unsupported == [] <==> b.unsupported == [])
    requires moved.down == evidence.down && moved.failures == evidence.failures
    ensures GradeOf(ScoreOver(a, evidence, all)) == GradeOf(ScoreOver(b, moved, Map(Moved(directory), all)))
    ensures GradeOf(ScoreOver(a, evidence, rest)) == GradeOf(ScoreOver(b, moved, Map(Moved(directory), rest)))
  {
    MovedScore(directory, ScoreOver(a, evidence, all), ScoreOver(b, moved, Map(Moved(directory), all)));
    MovedScore(directory, ScoreOver(a, evidence, rest), ScoreOver(b, moved, Map(Moved(directory), rest)));
  }
}
