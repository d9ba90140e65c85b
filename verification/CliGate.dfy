/** From a certificate and a threshold to an exit code. */
module CliGate {
  import opened Text
  import opened Domain
  import opened Policy
  import opened Certify

  datatype Exit = Success | GateFailed | NotAssessed | IncompleteCoverage

  const NO_THRESHOLD := OtherGrade("")

  function GradeNamed(name: string): Grade {
    if name == "A" then GradeA
    else if name == "B" then GradeB
    else if name == "C" then GradeC
    else if name == "F" then GradeF
    else if name == "N/A" then NotApplicable
    else OtherGrade(name)
  }

  /** A flag beats `--gate`, which beats the policy file; only a measured grade may be typed. */
  function ResolveMinGrade(minGrade: string, gate: bool, policy: Option<PolicyFile>): Result<Grade, string> {
    if minGrade != "" then
      var grade := GradeNamed(ToUpper(minGrade));
      if grade.Threshold() then Ok(grade) else Err(minGrade)
    else if gate then Ok(GradeA)
    else if policy.Some? && policy.value.gate != NO_THRESHOLD then Ok(policy.value.gate)
    else Ok(NO_THRESHOLD)
  }

  /** What the run read comes before how it graded. */
  function ApplyGate(cert: Certificate, minGrade: Grade): Exit {
    if cert.outcome.UnsupportedContent? then NotAssessed
    else if cert.coverage != Full then IncompleteCoverage
    else if minGrade == NO_THRESHOLD then Success
    else if cert.outcome.NoCandidates? then Success
    else
      var effective := if cert.effective == OtherGrade("") then cert.grade else cert.effective;
      if effective.Rank() >= minGrade.Rank() then Success else GateFailed
  }

  /** What the loader makes of the policy file's `gate:`; an absent one is no threshold. */
  function LoadGate(text: string): Result<Grade, string> {
    if text == "" then Ok(NO_THRESHOLD)
    else
      var grade := GradeNamed(ToUpper(Trim(text)));
      if grade.Valid() then Ok(grade) else Err(text)
  }

  /** A measured grade is at least the one the letter stands for. */
  predicate Meets(grade: Grade, letter: string) {
    if letter == "A" then grade.GradeA?
    else if letter == "B" then grade.GradeA? || grade.GradeB?
    else if letter == "C" then grade.GradeA? || grade.GradeB? || grade.GradeC?
    else true
  }

  lemma LetterRanks(grade: Grade, letter: string)
    requires grade.Rank() >= 0 && GradeNamed(letter).Valid()
    ensures grade.Rank() >= GradeNamed(letter).Rank() <==> Meets(grade, letter)
  {
  }

  /** What may be typed, and what may be written in a policy file. */
  lemma AcceptedNames(text: string, gate: bool, policy: Option<PolicyFile>)
    requires text != ""
    ensures ResolveMinGrade(text, gate, policy).Ok? <==> ToUpper(text) in {"A", "B", "C", "F"}
    ensures ResolveMinGrade(text, gate, policy).Ok? ==>
            ResolveMinGrade(text, gate, policy).value == GradeNamed(ToUpper(text)) && GradeNamed(ToUpper(text)).Valid()
    ensures LoadGate(text).Ok? <==> ToUpper(Trim(text)) in {"A", "B", "C", "F", "N/A"}
    ensures LoadGate(text).Ok? ==>
            LoadGate(text).value == GradeNamed(ToUpper(Trim(text))) && GradeNamed(ToUpper(Trim(text))).Valid()
  {
    NamedGrades(ToUpper(text));
    NamedGrades(ToUpper(Trim(text)));
  }

  lemma Untyped(policy: Option<PolicyFile>)
    ensures ResolveMinGrade("", true, policy) == Ok(GradeA)
    ensures ResolveMinGrade("", false, None) == Ok(NO_THRESHOLD)
  {
  }

  lemma OnlyAMeetsA(grade: Grade)
    requires grade.Rank() >= 0
    ensures grade.Rank() < GradeA.Rank() <==> !grade.GradeA?
    ensures !(grade.Rank() < NO_THRESHOLD.Rank())
  {
  }

  lemma NamedGrades(name: string)
    ensures GradeNamed(name).Threshold() <==> name in {"A", "B", "C", "F"}
    ensures GradeNamed(name).Valid() <==> name in {"A", "B", "C", "F", "N/A"}
  {
  }

  lemma RankOfName(name: string)
    requires GradeNamed(name).Valid()
    ensures GradeNamed(name).Rank() <= 0 <==> name == "F" || name == "N/A"
    ensures GradeNamed(name).Threshold() <==> name != "N/A"
  {
  }

  lemma LoadedRank(text: string, policy: PolicyFile)
    requires text != "" && LoadGate(text) == Ok(policy.gate)
    ensures ResolveMinGrade("", false, Some(policy)) == Ok(policy.gate)
    ensures policy.gate.Rank() <= 0 <==> ToUpper(Trim(text)) == "N/A" || ToUpper(Trim(text)) == "F"
  {
    RankOfName(ToUpper(Trim(text)));
  }

  lemma TypedRank(typed: string, gate: bool, policy: Option<PolicyFile>)
    requires typed != "" && ResolveMinGrade(typed, gate, policy).Ok?
    ensures ResolveMinGrade(typed, gate, policy).value.Rank() <= 0 <==> ToUpper(typed) == "F"
  {
    RankOfName(ToUpper(typed));
  }

  /**
   The loader asks whether a grade is valid, not whether it can be a threshold: N/A loads as written,
   and typed it is refused. F is taken either way.
   */
  lemma IdleGatesAreAccepted()
    ensures LoadGate("N/A") == Ok(NotApplicable) && ResolveMinGrade("N/A", false, None).Err?
    ensures LoadGate("F") == Ok(GradeF) && ResolveMinGrade("F", false, None) == Ok(GradeF)
  {
    assert Trim("N/A") == "N/A" && ToUpper("N/A") == "N/A";
    assert Trim("F") == "F" && ToUpper("F") == "F";
  }
}
