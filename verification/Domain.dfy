/**
 The vocabulary every stage shares: verdicts, locks, grades, findings.

 The source spells each of these as a string type with named constants, so every field can also
 hold a string nobody defined; the last constructor of each datatype is that case.
 */
module Domain {
  import opened Text

  datatype Option<+T> = None | Some(value: T)

  datatype Result<+T, +E> = Ok(value: T) | Err(error: E)

  datatype Reversibility =
    | Reversible | Costly | Irreversible | Unknown | WillFail
    | OtherVerdict(text: string)
  {
    predicate Valid() { !OtherVerdict? }

    /** Precedence between verdicts; a verdict nobody defined outranks every defined one. */
    function Severity(): nat {
      match this
      case Reversible => 0
      case Costly => 1
      case Unknown => 2
      case Irreversible => 3
      case WillFail => 4
      case OtherVerdict(_) => 5
    }
  }

  datatype LockHazard =
    | LockNone | LockShort | LockFullScan | LockTableRewrite | LockExclusive
    | OtherLock(text: string)
  {
    function Severity(): nat {
      match this
      case LockNone => 0
      case LockShort => 1
      case LockFullScan => 2
      case LockTableRewrite => 3
      case LockExclusive => 4
      case OtherLock(_) => 5
    }

    predicate AtLeast(other: LockHazard) { Severity() >= other.Severity() }
  }

  datatype Grade = GradeA | GradeB | GradeC | GradeF | NotApplicable | OtherGrade(text: string)
  {
    /** N/A and unset grades rank below F, so an unbranched comparison fails closed. */
    function Rank(): int {
      match this
      case GradeF => 0
      case GradeC => 1
      case GradeB => 2
      case GradeA => 3
      case _ => -1
    }

    function CapAt(limit: Grade): Grade {
      if limit.Rank() < Rank() then limit else this
    }

    /** The grades a policy may ask for, and the narrower set a command line may ask for. */
    predicate Valid() { !OtherGrade? }

    predicate Threshold() { GradeA? || GradeB? || GradeC? || GradeF? }

    function Gate(coverage: Coverage, policyIgnored: nat): GateStatus {
      if NotApplicable? then GateNotApplicable
      else if GradeA? && coverage.Full? && policyIgnored == 0 then GatePass
      else GateFail
    }
  }

  datatype GateStatus = GatePass | GateFail | GateNotApplicable

  datatype Coverage = Full | Partial | OtherCoverage(text: string)

  datatype Outcome = Analyzed | NoCandidates | UnsupportedContent | OtherOutcome(text: string)

  datatype Band = Negligible | Noticeable | Disruptive | Outage | OtherBand(text: string)
  {
    /** The best grade this lock duration permits, if it imposes a ceiling at all. */
    function Cap(): Option<Grade> {
      match this
      case Disruptive => Some(GradeB)
      case Outage => Some(GradeC)
      case _ => None
    }
  }

  /** No band was computed: the zero value of the source's field. */
  const NO_BAND := OtherBand("")

  datatype Note =
    | RewriteNote | ScanNote | NullsFound | NoNulls | NoStatistics
    | IndexUnused | IndexUsed | ClaimRetained | ClaimDestroyed | ClaimUnknown
    | CapacityUnbound | CapacityBound

  datatype FindingContext = FindingContext(rowEstimate: int, sizeBytes: int, band: Band, note: Note)

  datatype Subject = Subject(relation: string, target: string)

  /** A command that reverses one change, identified by the rule and the names it is built from. */
  datatype UndoStep = NoUndo | Reverse(rule: string, relation: string, target: string, newName: string)

  datatype Finding = Finding(
    ruleID: string, file: string, line: int, statement: string,
    reversibility: Reversibility, lock: LockHazard, undo: UndoStep,
    subject: Subject, context: Option<FindingContext>)

  datatype DownStatus = DownStatus(migration: string, upFile: string, exists_: bool, parses: bool)

  /** The canonical order of findings: file, then line, then rule. */
  predicate FindingLe(a: Finding, b: Finding) {
    if a.file != b.file then LexLe(a.file, b.file)
    else if a.line != b.line then a.line < b.line
    else LexLe(a.ruleID, b.ruleID)
  }

  lemma FindingLeTotal(a: Finding, b: Finding)
    ensures FindingLe(a, b) || FindingLe(b, a)
  {
    LexTotal(a.file, b.file);
    LexTotal(a.ruleID, b.ruleID);
  }

  lemma FindingLeTransitive(a: Finding, b: Finding, c: Finding)
    requires FindingLe(a, b) && FindingLe(b, c)
    ensures FindingLe(a, c)
  {
    if a.file != b.file && b.file != c.file {
      LexTransitive(a.file, b.file, c.file);
      if a.file == c.file {
        LexAntisymmetric(a.file, b.file);
      }
    } else if a.file == b.file == c.file && a.line == b.line == c.line {
      LexTransitive(a.ruleID, b.ruleID, c.ruleID);
    }
  }

  /** `a` comes strictly before `b` by place alone, so the rule never has to break a tie. */
  predicate PlacedBefore(a: Finding, b: Finding) {
    if a.file != b.file then LexLe(a.file, b.file) else a.line < b.line
  }
}
