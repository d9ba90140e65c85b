# Verified model of the reversibility engine

The engine reads a changeset, classifies every statement or manifest change by whether it can be
undone and what lock it takes, and issues a certificate: a grade (A, B, C, F or N/A), an effective
grade that a waiver can move, a merge gate that it cannot, and an undo plan. This project models
the path from files to exit code and proves what the certificate promises, over every input rather
than over fixtures.

| module | what it models |
|---|---|
| Domain, Text, Sorting, Paths, Changes | verdicts, locks, grades, findings; byte strings; the library sort; located paths; changed files |
| Dominance | one finding list being no better than another, the relation the comparisons of runs rest on |
| Scorer, ScoreProperties | the score loops, caps and causes; the closed form and its monotonicity |
| Policy, Glob | overrides, waivers, ignore patterns; `**` matching |
| Snapshot | production context, added to a copied slice in place |
| CoverageCheck | what was read against what exists |
| Undo | the rollback plan |
| Certify, Pipeline, Changesets | the staged run and the end-to-end comparisons |
| CliGate, ExitCodes | thresholds and the exit code |
| Rooting | the namespace of a run: a directory named one way or another |
| SqlTypes, Schema, Rules, PostgresAnalyzer, Normalize, Complexity | the PostgreSQL analyzer: type widths, the schema tracker, the rule table, the statement loop, statement text, the structural guard |
| Reports, PlainSql | what the analyzer says of each statement of a changeset; what the guard counts, character by character |
| Digest, GitProvider, FsProvider | the hashed byte stream and the two providers |

Verify with `dafny verify dfyconfig.toml` (Dafny 4.11).

## How it is built

Code that computes is a function; a loop is a method with its invariants, proved equal to a
specification function; the schema tracker, the ignore matcher and the running hash are classes;
the enrichment of a copied slice works on an array. What the source promises is then proved of
those functions.

A specification function shares its vocabulary with the code, so the outcome is also stated without
it: which findings a list of analyzer runs yields, what a statement is reported as, which days a
waiver covers, which grade a run gets, what is a candidate, and which text the guard refuses are
each an equivalence in constants, names, characters and values.

Comparisons of two runs all go through one relation. `Dominance.Dominated(r, xs, ys)` pairs every
element of `xs` with its own, related element of `ys`; appending findings, raising verdicts and
reordering are instances. `ScoreProperties.ScoreAntitone` says scoring is antitone under it, and the
policy, the snapshot and the analyzer are each shown to preserve it.

Strings are sequences of characters standing for bytes; in Normalize, whose loop is over runes, for
runes. Messages and rationales are structured
values: a cause is "assigned g" or "capped to g because ...", never text.

`GuardComplexity` reads one token and then updates the counters, where the source does both in the
arms of one switch.

## Where the code and its documentation part

Each of these is a theorem below, with the condition under which the promise does hold.

- A waiver "may not cover UNKNOWN" (internal/policy/doc.go:19-20), but UNKNOWN ranks below
  IRREVERSIBLE for overrides and overrides run first, so relabelling and then waiving lifts it:
  `Policy.UnknownWaivedExactly`, `Changesets.UnclassifiedIsF`. Appending text that does not parse to
  a migration can therefore raise the effective grade: `Changesets.AppendingNeverHelps`, with an
  instance in `Changesets.BrokenDropTableIsEffectivelyA`.
- A rejected override yields a certificate that claims full coverage, so a snapshot that causes the
  rejection can turn an incomplete or unassessed run's exit into success: `ExitCodes.ContextAndExitCode`, with an
  instance in `ExitCodes.ContextOpensExit`.
- Enrichment is commented as unable to change a classification (internal/engine/engine.go:287-288);
  it raises PG017 to WILL_FAIL, and only that: `Snapshot.EnrichedIsRatchet`, with an instance in
  `Snapshot.NullsRaiseVerdict`.
- An ambiguous table name is meant to yield no estimate, but the NOT NULL check still shows the row
  count of the last match: `Snapshot.AmbiguousTableGetsContextExactly`, with an instance in
  `Snapshot.AmbiguousTableLeaksRowEstimate`.
- numeric(10,2) to numeric(10,4) is reported as widening: `SqlTypes.WideningKeepsExactly`.
- A policy file may say `gate: N/A`, which the command line refuses and which gates no run. A gate
  of F, in a file or typed, gates none either: `ExitCodes.GatesNoRunExactly`,
  `ExitCodes.LoadedGateGatesNoRunExactly`, `ExitCodes.TypedGradeGatesNoRunExactly`.
- Listing paths explicitly where nothing was listed before replaces the list coverage is measured
  against, and can take a path off it: `Pipeline.EnumerationHelpsExactly` says exactly when that
  helps, with an instance in `Pipeline.FirstEnumerationCanHelp`.
- Path names are collapsed like patterns, so a name holding two adjacent segments `**` is seen
  shorter than it is: `Glob.AdjacentStarsInNameLost`.
- The undo plan's header looks only at defined verdicts while blockers count undefined ones:
  `Undo.HeaderMatchesBlockers`. Five survivable rules record no undo step and the plan does not say
  so: `Rules.ClassifyIsCharted`, `Undo.PlanCompleteExactly`.
- N/A ranks below F, so a blocking finding raises the rank of a run that measured nothing:
  `ScoreProperties.ScoreAntitone`.

## Model

| member | source | states |
|---|---|---|
| Pipeline.ContextNeverHelps | internal/engine/engine.go:289-338 | For every changeset, policy, day, down status and snapshot of an analyzed run, supplying the snapshot raises neither grade and opens no gate, also when it turns an accepted override into a rejected one |
| ExitCodes.ContextAndExitCode | internal/delivery/cli/check.go:471-570 | The snapshot turns a failing exit into a successful one, incomplete or not assessed alike, exactly when not every path was vouched for, no threshold above F is in force, the overrides are accepted for the findings as reported, the first override naming PG017 is milder than WILL_FAIL, and the snapshot shows nulls behind a PG017 finding |
| ExitCodes.ContextOpensExit | internal/engine/engine.go:289-298 | That happens: for every threshold not above F there are a policy, snapshot, run and finding for which it does |
| ExitCodes.NewRejectionExactly | internal/policy/policy.go:264-290 | A snapshot gets an accepted policy rejected exactly when its first override of PG017 is milder than WILL_FAIL and the snapshot shows such a finding to fail |
| ExitCodes.ExitOfRun | internal/delivery/cli/check.go:471-570 | Which exit a run ends in, from what it read and found: not assessed, incomplete, or failed exactly when a claimed and complete run's remaining findings grade below the threshold; with an override rejected, failed exactly under a threshold above F |
| ExitCodes.OpenGateMeetsEveryThreshold | internal/delivery/cli/check.go:471-570 | An open merge gate is a successful exit whatever the threshold |
| ExitCodes.ThresholdFGatesNoRun | internal/delivery/cli/check.go:441-463 | No run fails a threshold of F, N/A or none: whatever is graded at all is graded at least F |
| ExitCodes.ThresholdAboveFGates | internal/delivery/cli/check.go:471-570 | A completely read run with a failed analyzer fails exactly the thresholds above F |
| ExitCodes.GatesNoRunExactly | internal/delivery/cli/check.go:471-570 | A threshold decides no run's exit exactly when it does not rank above F: F, N/A or none |
| ExitCodes.LoadedGateGatesNoRunExactly | internal/policy/load.go:124-131 | A gate the loader accepts from a policy file is the threshold in force, and gates no run exactly when, trimmed and upper-cased, it is N/A or F |
| ExitCodes.TypedGradeGatesNoRunExactly | internal/delivery/cli/check.go:441-463 | A grade accepted on the command line gates no run exactly when, upper-cased, it is F |
| ExitCodes.TypedGradeMeans | internal/delivery/cli/check.go:441-570 | Exactly A, B, C and F may be typed; a completely read or rejected run then fails exactly when its effective grade is not among those from A down to that letter, whatever the flag and the policy say |
| ExitCodes.GateFlagMeans | internal/delivery/cli/check.go:441-570 | The flag alone asks for an A whatever the policy says; with nothing asked for nothing fails |
| ExitCodes.PolicyGateMeans | internal/delivery/cli/check.go:441-570 | Otherwise the policy's gate decides, read as a letter in any case: A, B, C, F or N/A |
| CliGate.IdleGatesAreAccepted | internal/policy/load.go:124-131 | N/A loads from a policy file and is refused as a flag; F is accepted as either |
| Pipeline.MoreFindingsNeverHelp | internal/engine/engine.go:278-338 | With everything already found still found, no grade rises and no gate opens, whatever the policy, snapshot and day |
| Pipeline.WaiversDoNotInterfere | internal/engine/engine.go:306-338 | Policies with the same overrides, no policy counting as one without any, even on different days, give the same grade, gate, outcome, coverage, blockers, causes and undo plan |
| Pipeline.EffectiveAtLeastGrade | internal/engine/engine.go:315-327 | The effective grade of a run ranks below its grade exactly when nothing was claimed, nothing failed, no override is rejected, some finding ends up blocking, and every one that does is waived |
| Pipeline.WaivedUnmeasuredRunRanksBelow | internal/engine/engine.go:315-327 | Such a run: nothing claimed and its one finding waived grades F and is effectively N/A |
| Pipeline.AppendedWaiverNeverHurts | internal/engine/engine.go:315-327 | Appending a waiver never lowers the effective grade of an analyzed run, nor does a policy holding only that waiver where there was none |
| Pipeline.LaterDayNeverHelps | internal/policy/policy.go:333-344 | As the day advances the effective grade of an analyzed run never rises |
| Pipeline.CountsAfterEveryWaiver | internal/policy/policy.go:264-344 | The exact days on which a finding counts: every day when its verdict is not REVERSIBLE, COSTLY or IRREVERSIBLE, otherwise those after the last day of every waiver that names its rule and is for every path or covers its file |
| Pipeline.MergeGateMeans | internal/engine/engine.go:330-375 | The merge gate passes if and only if every analyzer and validator finished, something was claimed, every enumerated path in or beside migrations was read and claimed, no ignored path is a candidate, every down migration exists and parses, and every finding reported, waived or not, is reversible under at most a short lock, with no override of its rule at anything but REVERSIBLE and no production nulls that make it fail |
| Pipeline.DecisionByFinding | internal/policy/policy.go:193-329 | The decision resolves each finding on its own: accepted exactly when no finding's override is rejected, all is every finding after context and overrides in canonical order, and what counts is what no live waiver covers |
| Pipeline.CertifiedPlanUnwinds | internal/engine/engine.go:386-386 | The plan on the certificate, built from findings after context and overrides, returns the final state to the initial one when none of them is left beyond undoing, every step inverts its change and place tells application order |
| Pipeline.EnumerationHelpsExactly | internal/engine/engine.go:291-338 | Measuring coverage against another list of paths raises the effective grade, and helps at all, exactly when something was claimed, some path was not vouched for, every path of the other list is, nothing failed, no override is rejected and no finding that still counts ends up blocking |
| Pipeline.EnumeratingMoreNeverHelps | internal/engine/engine.go:291-338 | So enumerating more raises neither grade and opens no gate, provided every path coverage was measured against is still listed; an empty enumeration stands for the files read |
| Pipeline.FirstEnumerationCanHelp | internal/engine/engine.go:291-298 | An instance of the first: listing one claimed file where nothing was listed takes an unclaimed one off the books and an F to an A |
| Pipeline.PolicyKeepsRatchet | internal/policy/policy.go:193-329 | The policy cannot undo the ratchet: findings no better than before are accepted only if the better ones were, and leave no less to score, both in all and after waivers |
| Pipeline.DecisionsOrderCertificates | internal/engine/engine.go:306-375 | Comparing decisions compares certificates: the worse decision never raises a grade or opens the gate, a rejected policy included |
| Changesets.AppendingNeverHelps | internal/analyzer/postgres/postgres.go:62-157 | Appending to the up migration applied last, parsing or not, never raises the grade and never opens the gate. The effective grade rises exactly when the longer file does not parse, the policy lifts its parse failure, and the changeset without that file has the better effective grade |
| Changesets.UnreadIsF | internal/analyzer/postgres/postgres.go:112-157 | A file that does not parse, applied last, fixes grade F and a shut gate; lifted, it leaves the effective grade of the changeset without it, and F otherwise |
| Changesets.BrokenDropTableIsEffectivelyA | internal/policy/policy.go:264-312 | The rise is real: breaking a one-statement DROP TABLE so that it no longer parses, with PG027 overridden to IRREVERSIBLE and waived, takes the effective grade from F to A |
| Changesets.BrokenDropTableExists | internal/policy/policy.go:264-312 | There are a run, policy and file that meet every premise of that |
| Changesets.UnclassifiedIsF | internal/policy/policy.go:264-312 | One UNKNOWN finding fixes the grade at F and shuts the gate whatever else the run holds. The effective grade is F too, unless the policy lifts it (overrides ending at IRREVERSIBLE and accepted, a live waiver, no nulls that make it fail), and then it is that of the run without the finding |
| Changesets.LiftedUnknownIsEffectivelyA | internal/policy/policy.go:264-312 | A complete run whose only finding is UNKNOWN and lifted grades F and is effectively an A |
| Changesets.ContextNeverHelpsMigrations | internal/analyzer/postgres/postgres.go:62-157 | Analyzed migrations carry no context, so the snapshot ratchet holds from the files on |
| Scorer.Score | internal/engine/scorer.go:71-245 | The imperative scorer, folds, caps and causes, computes the closed form: grade, causes, and blockers in finding order |
| Scorer.BlockingFindings | internal/engine/scorer.go:295-327 | One blocker per blocking finding, in finding order; verdicts nobody defined block too |
| Scorer.BlockersNameFindings | internal/engine/scorer.go:295-327 | Which findings are named and as what: exactly those neither REVERSIBLE nor COSTLY, by rule, file and line, as irreversible, unknown, bound to fail or undefined |
| Scorer.DownMigrationsAreSound | internal/engine/scorer.go:335-342 | Holds exactly when every down migration exists and parses |
| Scorer.UnsoundDownMigrations | internal/engine/scorer.go:270-282 | Names exactly the unsound ones, in order, or the generic phrase when none is |
| Scorer.UnsoundNamesExactly | internal/engine/scorer.go:270-282 | The names are of exactly the down migrations missing or not parsing, by up file or else by migration |
| Scorer.ApplyCap | internal/engine/scorer.go:196-205 | One cap applied to the grade and causes keeps them equal to the fold over the caps so far |
| Scorer.Tally | internal/engine/scorer.go:163-177 | The one loop counts the costly findings and finds whether all are reversible and the worst lock |
| Scorer.FailedARowConditions | internal/engine/scorer.go:251-263 | Lists exactly the missed conditions for an A |
| Scorer.WorstLockIsMaximum | internal/engine/scorer.go:163-177 | The worst lock is at least every finding's lock and is one of them, or none |
| Scorer.CapAllIsMinimum | internal/domain/classification.go:210-215 | Applying caps in turn gives the lowest of the starting grade and every cap |
| Scorer.CapOrderIrrelevant | internal/engine/scorer.go:163-244 | Any reordering of the caps gives the same grade |
| Scorer.MeasuredIsCapped | internal/engine/scorer.go:163-244 | With nothing blocking, the assignment capped by every active cap equals the grade read off the findings directly: C for three costly, an unsound down migration or an outage; B for anything costly, a full scan or worse, or a disruptive band; else A |
| Scorer.TraceReplays | internal/engine/scorer.go:196-205 | The recorded caps replay, each strictly lowering, from the assigned grade to the returned one, and each is an active cap |
| Scorer.CausesExplainGrade | internal/engine/scorer.go:163-244 | The causes of an analyzed run start with the assignment, replay to the grade, and end with "nothing capped" exactly for an A |
| ScoreProperties.ScoreAntitone | internal/engine/scorer.go:71-245 | On more and pointwise worse findings the grade rises exactly when the run measured nothing, nothing stopped the better one and something stopped the worse |
| ScoreProperties.BlockerRaisesUnmeasuredRun | internal/domain/classification.go:189-204 | That exception, concretely: a blocking finding moves an unmeasured run from N/A to F, which ranks higher |
| ScoreProperties.MeasuredAntitone | internal/engine/scorer.go:163-244 | The measured grade is antitone under worse findings and worse down migrations |
| ScoreProperties.GradeMeans | internal/engine/scorer.go:71-245 | Every grade in so many words: N/A exactly with nothing there and nothing stopping; A, B or C exactly for a measured run; C exactly for three COSTLY findings, an unsound down migration or an outage; A exactly with all REVERSIBLE, no lock above SHORT, every down migration sound and no disruptive band or outage |
| ScoreProperties.GradeIgnoresOrder | internal/engine/scorer.go:71-245 | Any permutation of the findings gets the same grade |
| ScoreProperties.GatePassesExactly | internal/domain/classification.go:293-316 | The gate on a scored input passes if and only if nothing failed, everything was analyzed and read, nothing was ignored, and every finding and down migration is harmless |
| ScoreProperties.GateNotApplicableExactly | internal/domain/classification.go:293-316 | Not applicable exactly when nothing was measured and nothing stopped the run |
| ScoreProperties.BlockersExplainFailure | internal/engine/scorer.go:71-161 | There are blockers exactly for an F and for content nobody could read |
| ScoreProperties.DisruptiveNeverDecides | internal/domain/finding.go:159-169 | Where a disruptive band comes only with a scanning lock, as enrichment produces it, its cap never changes a grade |
| Policy.Apply | internal/policy/policy.go:193-246 | Overrides, then first-match waivers, the sort of the waived and the dead list, as one function of the findings |
| Policy.ApplyOverrides | internal/policy/policy.go:264-290 | Tightens every finding, or reports the first loosening override met |
| Policy.WaiverFor | internal/policy/policy.go:298-329 | The first live waiver for a waivable finding, and none for UNKNOWN, WILL_FAIL or undefined verdicts |
| Policy.TightenedMeaning | internal/policy/policy.go:264-290 | Overrides are accepted exactly when those naming the rule escalate step by step from the verdict found, and then the last of them is the verdict; severity never drops |
| Policy.OverridesNeverSoften | internal/domain/classification.go:58-76 | The order is REVERSIBLE, COSTLY, UNKNOWN, IRREVERSIBLE, WILL_FAIL, undefined: one override is accepted exactly for a verdict no milder than the one found, and no number of them softens a verdict |
| Policy.DecisionConserves | internal/policy/policy.go:193-246 | Counted and waived findings together are a permutation of the tightened list |
| Policy.DecisionOrders | internal/policy/policy.go:193-246 | A finding is waived exactly when its verdict is REVERSIBLE, COSTLY or IRREVERSIBLE and some waiver names its rule, has no path or one that covers its file, and expires on no earlier day than today; otherwise it counts. Waived findings come sorted |
| Policy.WaivedCarriesFirstLive | internal/policy/policy.go:298-329 | Every waived finding is waivable and carries the reason, expiry and approver of the first waiver live for it |
| Policy.UnknownWaivedExactly | internal/policy/policy.go:264-312 | A finding found UNKNOWN is waived exactly when the deciding override relabels it IRREVERSIBLE and some waiver is live for it |
| Policy.WillFailNeverWaived | internal/policy/policy.go:298-312 | A finding found WILL_FAIL is never waived, whatever the overrides |
| Policy.DeadExactly | internal/policy/policy.go:236-245 | A waiver is reported dead exactly when it was nobody's first match |
| Policy.AppendedWaiverKeepsMatches | internal/policy/policy.go:313-326 | Appending a waiver leaves every existing match on its own waiver |
| Policy.WaiversOnlyLapse | internal/policy/policy.go:333-344 | Whatever is waived on a later day was waived on every earlier one |
| Policy.IgnoreMatcher.Ignores | internal/policy/policy.go:153-169 | Answers whether any pattern matches and records every pattern that ever matched a path asked about |
| Policy.IgnoreMatcher.Dead | internal/policy/policy.go:172-184 | Returns exactly the patterns that matched none of the paths asked about so far |
| Certify.CertifyRun | internal/engine/engine.go:224-404 | The staged run, sort, enrichment, policy, outcome, two scorings and gate conditions, equals the certificate as a function of its inputs |
| Certify.Collect | internal/engine/engine.go:410-438 | Findings, down statuses and failures gathered over the analyzers, then sorted |
| Certify.FindingsAreCollected | internal/engine/engine.go:410-438 | Every finding of every analyzer that ran, validator or not, as often as it was reported, and no other |
| Certify.StatusesAreCollected | internal/engine/engine.go:410-438 | Every status of every validator that finished, as often as it was reported, and no other |
| Certify.FailuresAreCollected | internal/engine/engine.go:410-438 | Every failure of an analyzer or its validator, as often as it happened, and no other |
| Certify.NoFailuresMeansAllFinished | internal/engine/engine.go:410-438 | No failure is recorded exactly when every analyzer and every down-migration validator finished |
| Snapshot.Enrich | internal/snapshot/enrich.go:28-75 | The copied slice is enriched element by element in place; the result is each finding enriched, verdict and lock ratcheted |
| Snapshot.SetNotNull | internal/snapshot/enrich.go:116-168 | The NOT NULL check rewrites one element of the array and leaves the others |
| Snapshot.CountMatches | internal/snapshot/enrich.go:344-361 | The counting lookup succeeds exactly when one entry matches |
| Snapshot.RowWidth | internal/snapshot/enrich.go:257-269 | Sums the average widths of the matching columns |
| Snapshot.EnrichedIsRatchet | internal/snapshot/enrich.go:28-75 | Enrichment changes nothing but context and verdict, never for the better; the verdict changes exactly for PG017 on a column with nulls, and then to WILL_FAIL |
| Snapshot.NullsRaiseVerdict | internal/snapshot/enrich.go:28-75 | The verdict does change: a survivable SET NOT NULL with nulls behind it becomes WILL_FAIL |
| Snapshot.RaisedExactly | internal/snapshot/enrich.go:116-168 | A snapshot makes a verdict worse exactly for PG017 with a defined verdict short of WILL_FAIL, when it has exactly one column of that name and its fraction of nulls is above zero |
| Snapshot.BandedExactly | internal/snapshot/enrich.go:79-270 | A duration band is attached exactly to PG006, PG007, PG017 without nulls, or PG021, under a FULL_SCAN or TABLE_REWRITE lock, on the only table of that name, with a known size; it is the band of that size |
| Snapshot.NamesColumnMeans | internal/snapshot/enrich.go:363-456 | A qualified relation is matched on schema and name, an unqualified one on the name alone, in any case |
| Snapshot.BandNeedsScan | internal/snapshot/estimate.go:48-86 | A duration band is only ever attached to a lock of at least a full scan |
| Snapshot.BandIsDuration | internal/snapshot/estimate.go:64-86 | The integer size thresholds are the published durations: under one second, thirty seconds and five minutes, at 50 MiB a second for a rewrite and 200 for a scan |
| Snapshot.SmallerIsMilder | internal/snapshot/estimate.go:64-86 | A smaller table never gets a harsher ceiling |
| Snapshot.MissingStatisticsAreMilder | internal/snapshot/enrich.go:235-269 | Missing column statistics shrink the estimated table, so the ceiling without them is never harsher than the ceiling with them |
| Snapshot.AmbiguousTableGetsContextExactly | internal/snapshot/enrich.go:116-168 | A finding about a table that is not the only match gets context exactly for PG017 on an unambiguous column with nulls, and its row count is then that of the last match, or 0 without one |
| Snapshot.AmbiguousTableLeaksRowEstimate | internal/snapshot/enrich.go:116-168 | Such a finding: with two matching tables it carries the row count of the other one |
| Undo.BuildUndoPlan | internal/engine/undo.go:27-40 | The header lines for what cannot be undone, then the steps in reverse order |
| Undo.UnreversibleFindings | internal/engine/undo.go:50-83 | One explanation per finding that leaves no undo, under one header |
| Undo.PlanExplains | internal/engine/undo.go:50-83 | A plan explains exactly the findings that are IRREVERSIBLE, UNKNOWN or WILL_FAIL, each with its place, statement and which of these it is |
| Undo.PlanUnwinds | internal/engine/undo.go:27-83 | If nothing is beyond undoing, every step inverts its own change and (file, line) strictly increases along application, running the plan from the final state restores the initial one |
| Undo.SortRestoresApplicationOrder | internal/domain/finding.go:175-186 | When (file, line) strictly increases along application, sorting the findings in any order gives application order back |
| Undo.PlanCompleteExactly | internal/engine/undo.go:27-83 | Over a stack of changes that each step pops, the plan empties it exactly when every finding has a step and none is beyond undoing |
| Undo.HeaderMatchesBlockers | internal/engine/undo.go:50-83 | The plan admits it is incomplete exactly when something blocks, if and only if every verdict is defined or some finding leaves no undo |
| CoverageCheck.DetermineOutcome | internal/engine/candidate.go:254-296 | The loops over read and enumerated paths compute the outcome and the unsupported list |
| CoverageCheck.MigrationDirectories | internal/engine/candidate.go:223-233 | Collects exactly the directories, among those of enumerated paths, that are named for migrations or directly hold a path the engine claims |
| CoverageCheck.CoverageFailsClosed | internal/engine/candidate.go:254-296 | The unsupported list is empty exactly when every enumerated path that is a candidate or sits beside migrations was read and claimed |
| CoverageCheck.CandidatesByName | internal/engine/candidate.go:27-108 | A candidate is exactly a path whose name ends in .sql, or in .py, .rb, .js or .ts below a directory named migrations, migration or migrate, in any case |
| CoverageCheck.CoverageByName | internal/engine/candidate.go:254-296 | For the run the command line sets up the unsupported list is empty exactly when every enumerated path ending in .sql, below such a directory, or beside a claimed one was read and claimed |
| CoverageCheck.EnumeratingMoreKeepsUnsupported | internal/engine/candidate.go:254-296 | Enumerating more paths never removes an unsupported one |
| CoverageCheck.OutcomeIgnoresRootNaming | internal/domain/located.go:84-107 | Two ways of naming the same located paths get the same outcome and the same unsupported paths |
| CoverageCheck.NamingTheDirectoryChangesNothing | internal/domain/located.go:84-107 | Pointing at a directory decides as pointing at its parent, the repository root included, and naming the files under it: the same outcome and, path by path, the same unsupported list |
| Rooting.NamingTheDirectoryKeepsVerdict | internal/domain/located.go:84-107 | The two runs, waiver patterns, ignored paths and finding files included, get the same grade, effective grade, gate, outcome and coverage |
| Snapshot.EnrichmentIgnoresFile | internal/snapshot/enrich.go:60-75 | Production context does not depend on the name of the file |
| Paths.LocateIgnoresRootNaming | internal/domain/located.go:84-107 | Moving a directory from the path to the prefix, an empty prefix included, leaves the located path as it was |
| Paths.LocateIsClean | internal/domain/located.go:84-107 | A located path has no empty or dot segments, and an empty prefix is the same as a dot |
| Paths.BackslashSeparates | internal/domain/located.go:100-107 | A backslash separates segments as a slash does |
| Text.CaseFolding | internal/analyzer/postgres/schema.go:88-91 | Folding maps each ASCII capital to its small letter and back and leaves everything else alone |
| Glob.MatchSegments | internal/policy/match.go:84-110 | The backtracking loop decides matching, in at most (name length + 2) to the number of `**` calls |
| Glob.Segments | internal/policy/match.go:66-81 | Splits, drops empty and dot segments and collapses adjacent `**` |
| Glob.MatchesMeansSplit | internal/policy/match.go:84-110 | A pattern matches exactly when the name splits into runs, one per pattern segment, `**` taking any run and every other segment one matching part |
| Glob.CollapsePreservesMatches | internal/policy/match.go:66-81 | Collapsing adjacent `**` in a pattern never changes what it matches |
| Glob.CollapseFixes | internal/policy/match.go:66-81 | Collapsing leaves a segment list alone exactly when it has no adjacent `**` |
| Glob.MatchPath | internal/policy/match.go:37-39 | Splitting pattern and path and searching decides the match of a located path |
| Glob.MatchMeaning | internal/policy/match.go:37-39 | For names without adjacent `**` segments, Match is the declarative meaning of the pattern as written |
| Glob.AdjacentStarsInNameLost | internal/policy/match.go:37-39 | Names are collapsed too: where `*` matches each segment of a name, one `*` per segment splits it, and matches it exactly when no two adjacent segments are spelled `**` |
| SqlTypes.NarrowingLosesValue | internal/analyzer/postgres/schema.go:112-237 | A narrowing verdict between types with valid modifiers always has a value that does not survive, the values read off the type's name and modifiers |
| SqlTypes.WideningKeepsExactly | internal/analyzer/postgres/schema.go:112-237 | A widening keeps every value if and only if, for numeric types, the digits before the point do not shrink |
| SqlTypes.InclusionIsJudged | internal/analyzer/postgres/schema.go:105-237 | Conversely, between integers, between text types, between numerics, and between date and timestamptz, strictly more values is judged widening, strictly fewer narrowing and the same values the same |
| SqlTypes.UnknownExactly | internal/analyzer/postgres/schema.go:112-155 | The verdict is unknown exactly outside those pairs, unless name and modifiers are equal |
| SqlTypes.WideningCanLose | internal/analyzer/postgres/schema.go:204-226 | numeric(10,2) to numeric(10,4) is called widening and loses values |
| SqlTypes.SameHoldsSame | internal/analyzer/postgres/schema.go:112-167 | Types of the same width hold the same values |
| SqlTypes.WideningIsStrictOrder | internal/analyzer/postgres/schema.go:112-155 | Widening is irreflexive and transitive |
| SqlTypes.WideningReversesNarrowing | internal/analyzer/postgres/schema.go:112-226 | The reverse of a widening is a narrowing; the reverse of a narrowing is a widening, unless precision and scale cross, when both directions narrow |
| SqlTypes.SameIsEquivalence | internal/analyzer/postgres/schema.go:112-167 | Same width is reflexive, symmetric and transitive |
| Schema.SchemaTracker.Apply | internal/analyzer/postgres/schema.go:32-57 | One statement updates the nested table of types as the effect function says |
| Schema.SchemaTracker.Set | internal/analyzer/postgres/schema.go:59-70 | Recording a type creates the table's entry if needed and nothing else changes |
| Schema.SchemaTracker.Remove | internal/analyzer/postgres/schema.go:72-76 | Dropping a column forgets only that column |
| Schema.TrackerIsBackwardSearch | internal/analyzer/postgres/schema.go:32-90 | After any run of statements the tracker answers a type exactly when searching back finds that declaration with no later drop of the column or its table, names compared without case |
| Schema.EffectMeans | internal/analyzer/postgres/schema.go:32-76 | What one statement says about a column: declared by ALTER, ADD COLUMN or, last of its name with a type, by CREATE TABLE; dropped with the column or its table |
| Rules.ConcurrentlyOnlyEasesLock | internal/analyzer/postgres/rules.go:40-643 | CONCURRENTLY, on the four statements that take it, never changes a verdict and never strengthens a lock |
| Rules.ClassifyDependsOnPriorType | internal/analyzer/postgres/rules.go:612-643 | A classification sees the run so far only through the type of the column it alters |
| Rules.TypeChangeVerdict | internal/analyzer/postgres/rules.go:612-643 | PG006 has a value that does not survive the change from the last declared type; PG007 keeps all exactly when numeric digits before the point do; otherwise UNKNOWN exactly for equal or incomparable types |
| Rules.UndeclaredTypeIsUnknown | internal/analyzer/postgres/rules.go:612-643 | A type change of a column the changeset never declared is UNKNOWN |
| Rules.ClassifyLandsOnItsRow | internal/analyzer/postgres/rules.go:40-643 | Transcriptions of the classifier and of the first column of docs/RULES.md agree on the row of every statement; PG027 only for an unrecognized kind, an undecided type change, or a constraint the table does not list |
| Rules.ClassifyIsCharted | internal/analyzer/postgres/rules.go:40-643 | Transcriptions of the classifier and of docs/RULES.md agree on the verdict and lock of that row; an undo step comes only with a reversible or costly verdict and is missing there exactly for PG050, PG054, PG055, PG057 and PG058 |
| PostgresAnalyzer.AnalyzeFile | internal/analyzer/postgres/postgres.go:112-157 | Each statement is judged in the state those before it left, and the tracker ends in the state they all leave |
| PostgresAnalyzer.AnalyzeChangeset | internal/analyzer/postgres/postgres.go:62-109 | Up migrations in path order through one tracker; the findings sorted |
| PostgresAnalyzer.AnalysisIgnoresFileOrder | internal/analyzer/postgres/postgres.go:62-109 | Any permutation of files with distinct paths gives the same findings in the same order |
| PostgresAnalyzer.EarlierFindingsStand | internal/analyzer/postgres/postgres.go:112-157 | Later statements change nothing said about earlier ones |
| PostgresAnalyzer.AppendingOnlyAdds | internal/analyzer/postgres/postgres.go:62-157 | Appending statements to the last up migration keeps every finding, as a multiset |
| Reports.ReportedFinding | internal/analyzer/postgres/postgres.go:62-157 | Each statement of an up migration that parses is reported where it stands, about its own relation and target, with the verdict and lock it has after exactly the statements before it, those of earlier files included |
| Reports.OneFindingEach | internal/analyzer/postgres/postgres.go:62-157 | One finding for each statement of an up migration and one for each that does not parse, and no other |
| Reports.ReportedTypeChange | internal/analyzer/postgres/rules.go:612-643 | A reported type change goes by the values of the type last declared before it in the changeset: PG006 IRREVERSIBLE for strictly fewer, with a value that is lost; PG007 COSTLY for strictly more; otherwise PG027 UNKNOWN, numeric types that lose digits before the point being PG007 exactly as stated |
| Reports.ReportedUndeclared | internal/analyzer/postgres/rules.go:612-643 | A type change of a column not declared before it is reported PG027 UNKNOWN |
| Reports.ReportedUnread | internal/analyzer/postgres/postgres.go:112-157 | An up migration that does not parse is reported as PG027 UNKNOWN under an exclusive lock at its first line with anything on it |
| Reports.UpMigrationsByName | internal/analyzer/postgres/migration.go:37-60 | The files read are the claimed, present ones named *.sql and neither *.down.sql nor down.sql, in any case |
| PostgresAnalyzer.AnalyzedFindingsHaveNoContext | internal/analyzer/postgres/postgres.go:112-157 | No finding leaves the analyzer with production context |
| Normalize.NormalizeStatement | internal/analyzer/analyzer.go:61-92 | The rune loop equals joining the words by one space and truncating with the marker inside the bound |
| Normalize.NormalizedIsIdempotent | internal/analyzer/analyzer.go:61-92 | Normalizing twice is normalizing once, and the result is within the bound |
| Normalize.ReformattingChangesNothing | internal/analyzer/analyzer.go:61-92 | Replacing, doubling, prefixing or appending white space changes nothing |
| Normalize.JoiningKeepsCharacters | internal/analyzer/analyzer.go:61-92 | White space aside no character is lost, added or moved |
| Normalize.LongStatementsAreCut | internal/analyzer/analyzer.go:61-92 | Up to 200 characters are kept whole; of more, the first 197 and three dots |
| Normalize.WordsAcross | internal/analyzer/analyzer.go:61-92 | The words of two texts around white space are the words of each |
| Complexity.GuardComplexity | internal/analyzer/postgres/parser/complexity.go:57-142 | One pass over the bytes decides what the token stream decides |
| Complexity.AcceptedExactly | internal/analyzer/postgres/parser/complexity.go:57-142 | Accepted exactly when every stretch of tokens inside one statement has at most 500 operators and at most 100 more openings than closings |
| PlainSql.PlainAcceptedExactly | internal/analyzer/postgres/parser/complexity.go:57-142 | Text without quotes, dollar signs or comments is accepted exactly when no stretch of its characters without a semicolon has over 100 more ( than ), or over 500 runs of symbols and words that are operators |
| PlainSql.TokensMark | internal/analyzer/postgres/parser/complexity.go:57-142 | Its tokens are its parentheses and semicolons, one for one and in order, and one operator for each maximal run of symbols and each whole word that is one, in any case |
| Complexity.RefusalNamesFirst | internal/analyzer/postgres/parser/complexity.go:86-134 | A refusal names the limit and the number of the first statement over it, and everything before was accepted |
| Complexity.DepthIsReached | internal/analyzer/postgres/parser/complexity.go:86-112 | The clamped counter is reached by some suffix inside the statement |
| Complexity.CountersDominate | internal/analyzer/postgres/parser/complexity.go:86-134 | Both counters bound every suffix inside the statement |
| Complexity.LiteralsAreSkipped | internal/analyzer/postgres/parser/complexity.go:192-207 | A quoted literal of any text, its quotes doubled, is one inert token ending where it ends |
| Complexity.CommentsAreSkipped | internal/analyzer/postgres/parser/complexity.go:171-189 | A comment with comments nested to any depth is one inert token ending where the outermost does |
| Complexity.DollarBodiesAreSkipped | internal/analyzer/postgres/parser/complexity.go:211-232 | A dollar-quoted body of any text is one inert token, up to where its own tag first comes again |
| Complexity.DollarsMayBeAlone | internal/analyzer/postgres/parser/complexity.go:211-232 | A dollar sign before neither a letter nor another one, as in $1, hides nothing behind it |
| Complexity.LineCommentsAreSkipped | internal/analyzer/postgres/parser/complexity.go:163-168 | A line comment is one inert token up to its newline or the end of input |
| Complexity.SkipBlockComment | internal/analyzer/postgres/parser/complexity.go:171-189 | Lands past the comment that closes the outermost level, or at the end of input |
| Complexity.SkipQuoted | internal/analyzer/postgres/parser/complexity.go:192-207 | Lands past the closing quote, or at the end of input |
| Complexity.SkipDollarQuoted | internal/analyzer/postgres/parser/complexity.go:211-232 | Finds a body only behind a tag of letters and underscores, and lands past its closing tag or at the end of input |
| Complexity.SkipLineComment | internal/analyzer/postgres/parser/complexity.go:163-168 | Lands past the newline, or at the end of input |
| Complexity.ReadWord | internal/analyzer/postgres/parser/complexity.go:150-161 | Returns the whole word, to its boundary |
| Complexity.Scan | internal/analyzer/postgres/parser/complexity.go:63-139 | Every token ends strictly after it starts and within the input, so the scan terminates |
| Digest.InputDigest | internal/engine/digest.go:28-43 | The bytes written to the hash are the path-sorted files, field by field |
| Digest.HashState.WriteField | internal/engine/digest.go:47-53 | Appends eight length bytes, most significant first, and the field |
| Digest.CombineDigests | internal/engine/digest.go:63-68 | Writes both digests length-prefixed |
| Digest.ByteAt | internal/engine/digest.go:47-53 | The bytes of a length, each by its place, the most significant first |
| Digest.DecodeEncode | internal/engine/digest.go:28-53 | A decoder recovers the list of five-field records from the stream |
| Digest.StreamIdentifiesChangeset | internal/engine/digest.go:28-53 | Equal streams come from the same files; with distinct paths, streams are equal exactly for permutations |
| Digest.CombinedIdentifiesBoth | internal/engine/digest.go:63-68 | Combining loses neither digest |
| GitProvider.ParseNameStatus | internal/provider/git.go:362-409 | The index loop decodes the fields or reports the first error met |
| GitProvider.ParseUndoesEncoding | internal/provider/git.go:362-409 | Parsing the NUL encoding of any list of changes with non-empty NUL-free paths returns that list |
| GitProvider.NothingIsDropped | internal/provider/git.go:362-409 | A successful parse accounts for every non-empty field, in order, as the fields of the changes it returns |
| GitProvider.ChangedPaths | internal/provider/git.go:236-266 | The listing: a rename is a removal and an addition, a copy an addition |
| GitProvider.ReadChanges | internal/provider/git.go:416-501 | Reading equals reading the wanted entries of the listing in order, up to the first failure |
| GitProvider.ListingAndReadingAgree | internal/provider/git.go:416-501 | When reads succeed, the files have exactly the paths and statuses of the wanted listing, in order; reading fails only if one of those reads does |
| GitProvider.ListingMeans | internal/provider/git.go:236-266 | Listed are exactly: as added, what was added, copied to or renamed to; as removed, what was deleted or renamed from; as modified, what was modified or changed type |
| GitProvider.ListingCounts | internal/provider/git.go:236-266 | One entry a change, and one more for each rename |
| GitProvider.ReadSides | internal/provider/git.go:416-501 | A file read holds the old content before and the new one after, and nothing on the side it is not on |
| GitProvider.WantedIsRead | internal/provider/git.go:416-501 | Every listed path that is wanted is read, with its status |
| GitProvider.ParseSize | internal/provider/git.go:623-639 | A size within the limit is returned exactly for the numbers within it; anything else is refused or comes back over the limit, before it could overflow |
| FsProvider.DiffListings | internal/provider/fs.go:251-280 | Whatever order the sets are walked in: one entry per path on either side, by path, with the side it is on |
| FsProvider.DiffTrees | internal/provider/fs.go:288-319 | The same over contents |
| FsProvider.ListingMirrorsTrees | internal/provider/fs.go:251-319 | The listing of two trees is the comparison of their contents with the contents left out |
| FsProvider.ComparisonIsDeterministic | internal/provider/fs.go:321-326 | Two runs over the same trees agree, though map iteration is unordered |
| FsProvider.ListingIsComplete | internal/provider/fs.go:251-280 | Every path is listed exactly once, ADDED only in the second tree, REMOVED only in the first, MODIFIED in both, and under no other status |
| FsProvider.ComparisonIsComplete | internal/provider/fs.go:288-319 | The same of the files compared, each with its content on each side it is on |

## Left out

- Wording: rationales, remedies and the text of blockers, causes and undo steps are structured values; per-directory grouping of unsupported blockers is presentation.
- The pg_query parser: `parse` is any function from text to statements that may fail. The guard in front of it is modelled on its own.
- Kubernetes and Terraform analyzers: any analyzer run, as a list of findings, down statuses or a failure; their rule tables would add many closed, easy members.
- Pairing of up and down files: down statuses are inputs of a run.
- Panic recovery and cancellation: the fixed F certificate is modelled where a policy is rejected; a stack and a context are not.
- SHA-256: what is proved is about the bytes fed to it.
- Equal paths under an unstable sort: `sort.Slice` leaves their order open; the model's sort is stable, and statements about order ask for distinct paths.
- Digest.StreamIdentifiesChangeset: asks that fields be shorter than 2^64 bytes, which is what the eight length bytes can carry; nil and empty content are one value.
- `..` segments and absolute roots: path cleaning is modelled on segments without them.
- One-segment patterns: `path.Match` is an arbitrary predicate on a pattern segment and a name segment; malformed patterns are rejected by the loader and are not modelled.
- Unicode case folding: names and extensions fold ASCII only.
- Snapshot.BandIsDuration: durations are exact reals truncated to nanoseconds; floating-point rounding, the overflow of a duration, and its formatting are not modelled.
- Calendar: days are integers and an expiry is an optional day; date parsing, time zones and the length limit on a waiver are not modelled.
- Loading: YAML decoding, and the snapshot and policy digests, which write sections without counts or tags.
- Listing context files beside changed ones, running git, walking the filesystem, reading blobs: listings, revisions and contents are inputs.
- Renderers, SARIF, comments, webhooks, authentication and the GitHub client.
- SqlTypes.WideningKeepsExactly: values of character types are strings by length; the trailing-space rules of char(n) are not modelled.
- Rules.ClassifyIsCharted: indexes and common table expressions that only change a rationale are not part of a statement here.
- Scorer.Score: blockers keep finding order, where the source sorts their text, and the remedy lines after a partial-coverage blocker are not modelled; the text itself is not part of this model.
- Scorer.BlockingFindings: the same, finding order instead of the order of the texts.
- Changesets.AppendingNeverHelps: assumes that what the parser reads from the longer file extends what it read from the shorter one, when it reads anything.
- Normalize.ReformattingChangesNothing: states one change of white space at a time; any two texts with the same words are joined by such changes.
