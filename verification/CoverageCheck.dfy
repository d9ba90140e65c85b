/**
 Coverage: what a run was able to do at all, measured against every path that exists rather than
 against the files that were read.
 */
module CoverageCheck {
  import opened Text
  import opened Domain
  import opened Dominance
  import opened Paths
  import Sorting

  /** Whether any analyzer claims a path. */
  type Supports = Located -> bool

  const MIGRATION_DIRS := {"migrations", "migration", "migrate"}
  const CANDIDATE_EXTENSIONS := {".py", ".rb", ".js", ".ts"}

  datatype Reason = UnclaimedSql | UnclaimedMigration(ext: string) | BesideMigrations | NoReason

  predicate NamedForMigrations(directory: Located) {
    exists segment | segment in directory :: ToLower(segment) in MIGRATION_DIRS
  }

  predicate InMigrationDir(at: Located) { NamedForMigrations(Dir(at)) }

  predicate EndsInSql(at: Located) {
    at != [] && HasSuffix(ToLower(at[|at| - 1]), ".sql")
  }

  function ClassifyCandidate(at: Located): (bool, Reason) {
    if EndsInSql(at) then (true, UnclaimedSql)
    else if Ext(at) !in CANDIDATE_EXTENSIONS then (false, if InMigrationDir(at) then BesideMigrations else NoReason)
    else if InMigrationDir(at) then (true, UnclaimedMigration(Ext(at)))
    else (false, NoReason)
  }

  predicate Candidate(at: Located) { ClassifyCandidate(at).0 }

  function ReasonFor(at: Located): Reason {
    var reason := ClassifyCandidate(at).1;
    if reason.NoReason? then BesideMigrations else reason
  }

  predicate LowerCase(letters: string) { forall c | c in letters :: 'a' <= c <= 'z' }

  lemma DotSnoc(front: string, c: char)
    ensures SuffixFromDot(front + [c]) ==
            if c == '.' then "." else if SuffixFromDot(front) == "" then "" else SuffixFromDot(front) + [Lower(c)]
  {
    assert (front + [c])[..|front|] == front;
  }

  lemma LowerSnoc(front: string, c: char)
    ensures ToLower(front + [c]) == ToLower(front) + [Lower(c)]
  {
  }

  /** A final dot and letters: the same as ending in a dot and those letters, in any case. */
  lemma {:induction false} SuffixFromDotMeans(name: string, letters: string)
    requires LowerCase(letters) && letters != ""
    ensures SuffixFromDot(name) == "." + letters <==> HasSuffix(ToLower(name), "." + letters)
    decreases |letters|
  {
    if name != "" {
      var front, c := name[..|name| - 1], name[|name| - 1];
      var begin, last := letters[..|letters| - 1], letters[|letters| - 1];
      assert name == front + [c] && letters == begin + [last];
      assert last in letters && forall l | l in begin :: l in letters;
      SuffixStep(front, c, begin, last);
      LowerSuffixStep(front, c, begin, last);
      if begin == "" {
        DotLast(front);
      } else {
        SuffixFromDotMeans(front, begin);
      }
    }
  }

  lemma LowerSuffixStep(front: string, c: char, begin: string, last: char)
    ensures HasSuffix(ToLower(front + [c]), "." + (begin + [last])) <==>
            Lower(c) == last && HasSuffix(ToLower(front), "." + begin)
  {
    LowerSnoc(front, c);
    var lower := ToLower(front + [c]);
    assert lower[..|lower| - 1] == ToLower(front) && lower[|lower| - 1] == Lower(c);
    assert "." + (begin + [last]) == ("." + begin) + [last];
    SuffixSnoc(lower, "." + begin, last);
  }

  lemma SuffixSnoc(s: string, suffix: string, c: char)
    requires s != ""
    ensures HasSuffix(s, suffix + [c]) <==> s[|s| - 1] == c && HasSuffix(s[..|s| - 1], suffix)
  {
    if |s| >= |suffix| + 1 {
      var k := |s| - |suffix| - 1;
      assert s[k..] == s[..|s| - 1][k..] + [s[|s| - 1]];
    }
  }

  lemma DotLast(name: string)
    ensures SuffixFromDot(name) == "." <==> HasSuffix(ToLower(name), ".")
  {
    if name != "" {
      assert ToLower(name)[|name| - 1..] == [ToLower(name)[|name| - 1]];
    }
  }

  lemma SnocInjective(a: string, x: char, b: string, y: char)
    ensures a + [x] == b + [y] <==> a == b && x == y
  {
    assert (a + [x])[..|a|] == a && (b + [y])[..|b|] == b;
    assert (a + [x])[|a|] == x && (b + [y])[|b|] == y;
  }

  lemma Extended(rest: string, x: char, front: string, y: char)
    ensures (if rest == "" then "" else rest + [x]) == ("." + front) + [y] <==> x == y && rest == "." + front
  {
    SnocInjective(rest, x, "." + front, y);
  }

  lemma SuffixStep(front: string, c: char, begin: string, last: char)
    requires 'a' <= last <= 'z'
    ensures SuffixFromDot(front + [c]) == "." + (begin + [last]) <==>
            Lower(c) == last && SuffixFromDot(front) == "." + begin
  {
    DotSnoc(front, c);
    assert "." + (begin + [last]) == ("." + begin) + [last];
    if c == '.' {
      assert |"." + (begin + [last])| > 1;
    } else {
      Extended(SuffixFromDot(front), Lower(c), begin, last);
    }
  }

  /** A script a framework may keep migrations in, by the end of its name, in any case. */
  predicate ScriptName(name: string) {
    var lower := ToLower(name);
    HasSuffix(lower, ".py") || HasSuffix(lower, ".rb") || HasSuffix(lower, ".js") || HasSuffix(lower, ".ts")
  }

  /** One of the directories above a file is named for migrations, in any case. */
  predicate BelowMigrations(at: Located) {
    exists i | 0 <= i < |at| - 1 ::
      ToLower(at[i]) == "migrations" || ToLower(at[i]) == "migration" || ToLower(at[i]) == "migrate"
  }

  /**
   What looks like a migration nobody claimed: any `*.sql`, and any script below a directory named for
   migrations, however deep.
   */
  lemma CandidatesByName(at: Located)
    ensures Candidate(at) <==>
      at != [] && (HasSuffix(ToLower(at[|at| - 1]), ".sql") || (ScriptName(at[|at| - 1]) && BelowMigrations(at)))
    ensures InMigrationDir(at) <==> BelowMigrations(at)
  {
    if at != [] {
      ScriptsByName(at[|at| - 1]);
    }
    DirectoriesByName(at);
  }

  lemma DirectoriesByName(at: Located)
    ensures InMigrationDir(at) <==> BelowMigrations(at)
  {
    if segment :| segment in Dir(at) && ToLower(segment) in MIGRATION_DIRS {
      var i :| 0 <= i < |Dir(at)| && Dir(at)[i] == segment;
      assert at[i] == segment;
    }
    if i :| 0 <= i < |at| - 1 && ToLower(at[i]) in MIGRATION_DIRS {
      assert Dir(at)[i] == at[i] && at[i] in Dir(at);
    }
  }

  lemma ScriptsByName(name: string)
    ensures SuffixFromDot(name) in CANDIDATE_EXTENSIONS <==> ScriptName(name)
  {
    SuffixFromDotMeans(name, "py");
    SuffixFromDotMeans(name, "rb");
    SuffixFromDotMeans(name, "js");
    SuffixFromDotMeans(name, "ts");
    assert "." + "py" == ".py" && "." + "rb" == ".rb" && "." + "js" == ".js" && "." + "ts" == ".ts";
  }

  // ---------------------------------------------------------------- the outcome

  /** The questions one run asks of a path: where it is, and what that makes it. */
  datatype Site = Site(
    locate: string -> Located, supports: Supports, named: Located -> bool, candidate: Located -> bool)

  function SiteFor(supports: Supports, prefix: string): Site {
    Site((p: string) => Locate(prefix, p), supports, NamedForMigrations, Candidate)
  }

  predicate Marks(site: Site, p: string) {
    site.supports(site.locate(p)) || site.named(Dir(site.locate(p)))
  }

  ghost function Directories(site: Site, enumerated: seq<string>): set<Located> {
    set p | p in enumerated && Marks(site, p) :: Dir(site.locate(p))
  }

  method MigrationDirectories(site: Site, enumerated: seq<string>) returns (dirs: set<Located>)
    ensures dirs == Directories(site, enumerated)
  {
    dirs := {};
    for i := 0 to |enumerated|
      invariant dirs == Directories(site, enumerated[..i])
    {
      var at := site.locate(enumerated[i]);
      assert enumerated[..i + 1] == enumerated[..i] + [enumerated[i]];
      if site.supports(at) || site.named(Dir(at)) {
        dirs := dirs + {Dir(at)};
      }
    }
    assert enumerated[..|enumerated|] == enumerated;
  }

  predicate Unvouched(site: Site, dirs: set<Located>, wasRead: bool, at: Located) {
    !(wasRead && site.supports(at)) && (Dir(at) in dirs || site.candidate(at))
  }

  function IsUnvouched(site: Site, dirs: set<Located>, files: seq<string>): string -> bool {
    (p: string) => Unvouched(site, dirs, p in files, site.locate(p))
  }

  /** Every enumerated path nobody can vouch for, in order. */
  ghost function Unsupported(site: Site, files: seq<string>, enumerated: seq<string>): seq<string> {
    Sorting.Sort(LexLe, Filter(IsUnvouched(site, Directories(site, enumerated), files), enumerated))
  }

  predicate AnyClaimed(site: Site, files: seq<string>) {
    exists p | p in files :: site.supports(site.locate(p))
  }

  ghost function OutcomeOf(site: Site, files: seq<string>, enumerated: seq<string>): Outcome {
    if AnyClaimed(site, files) then Analyzed
    else if Unsupported(site, files, enumerated) != [] then UnsupportedContent
    else NoCandidates
  }

  method ReadPaths(site: Site, files: seq<string>) returns (read: set<string>, claimed: bool)
    ensures read == set p | p in files
    ensures claimed == AnyClaimed(site, files)
  {
    read, claimed := {}, false;
    for i := 0 to |files|
      invariant read == set p | p in files[..i]
      invariant claimed == AnyClaimed(site, files[..i])
    {
      assert files[..i + 1] == files[..i] + [files[i]];
      read := read + {files[i]};
      if site.supports(site.locate(files[i])) {
        claimed := true;
      }
    }
    assert files[..|files|] == files;
  }

  method DetermineOutcome(site: Site, files: seq<string>, enumerated: seq<string>)
    returns (outcome: Outcome, unsupported: seq<string>)
    ensures outcome == OutcomeOf(site, files, enumerated)
    ensures unsupported == Unsupported(site, files, enumerated)
  {
    var read, claimed := ReadPaths(site, files);
    var dirs := MigrationDirectories(site, enumerated);
    unsupported := [];
    for i := 0 to |enumerated|
      invariant unsupported == Filter(IsUnvouched(site, dirs, files), enumerated[..i])
    {
      var p := enumerated[i];
      FilterStep(IsUnvouched(site, dirs, files), enumerated, i);
      var at := site.locate(p);
      if p in read && site.supports(at) {
        continue;
      }
      if Dir(at) in dirs || site.candidate(at) {
        unsupported := unsupported + [p];
      }
    }
    assert enumerated[..|enumerated|] == enumerated;
    unsupported := Sorting.Sort(LexLe, unsupported);
    outcome := if claimed then Analyzed else if |unsupported| > 0 then UnsupportedContent else NoCandidates;
  }

  // ---------------------------------------------------------------- fail closed

  lemma UnsupportedMember(site: Site, files: seq<string>, enumerated: seq<string>, p: string)
    ensures p in Unsupported(site, files, enumerated) <==>
      p in enumerated && Unvouched(site, Directories(site, enumerated), p in files, site.locate(p))
  {
    var q := IsUnvouched(site, Directories(site, enumerated), files);
    var kept := Filter(q, enumerated);
    FilterMember(q, enumerated, p);
    assert p in multiset(Sorting.Sort(LexLe, kept)) <==> p in multiset(kept);
  }

  /** A directory counts because of its name, or because a claimed path sits in it. */
  ghost predicate HoldsMigrations(site: Site, enumerated: seq<string>, directory: Located) {
    site.named(directory) ||
    exists q | q in enumerated :: site.supports(site.locate(q)) && Dir(site.locate(q)) == directory
  }

  lemma DirectoriesHold(site: Site, enumerated: seq<string>, p: string)
    requires p in enumerated
    ensures Dir(site.locate(p)) in Directories(site, enumerated) <==>
            HoldsMigrations(site, enumerated, Dir(site.locate(p)))
  {
  }

  /** What coverage demands of one existing path. */
  ghost predicate Vouched(site: Site, files: seq<string>, enumerated: seq<string>, p: string) {
    HoldsMigrations(site, enumerated, Dir(site.locate(p))) || site.candidate(site.locate(p)) ==>
      p in files && site.supports(site.locate(p))
  }

  /**
   Nothing is left unvouched for exactly when every existing path that sits in a migration
   directory, or looks like a migration, was both read and claimed.
   */
  lemma CoverageFailsClosed(site: Site, files: seq<string>, enumerated: seq<string>)
    ensures Unsupported(site, files, enumerated) == [] <==>
            forall p | p in enumerated :: Vouched(site, files, enumerated, p)
  {
    var unsupported := Unsupported(site, files, enumerated);
    forall p | p in enumerated ensures p in unsupported <==> !Vouched(site, files, enumerated, p) {
      UnsupportedMember(site, files, enumerated, p);
      DirectoriesHold(site, enumerated, p);
    }
    if unsupported != [] {
      UnsupportedMember(site, files, enumerated, unsupported[0]);
    }
  }

  /** What must be read and claimed, by name: `*.sql`, below a migrations directory, or beside a claimed path. */
  predicate MustBeClaimed(supports: Supports, prefix: string, enumerated: seq<string>, p: string) {
    var at := Locate(prefix, p);
    || (at != [] && HasSuffix(ToLower(at[|at| - 1]), ".sql"))
    || BelowMigrations(at)
    || exists q | q in enumerated :: supports(Locate(prefix, q)) && Dir(Locate(prefix, q)) == Dir(at)
  }

  /** For the run the command line sets up, coverage is complete exactly when all of that was. */
  lemma CoverageByName(supports: Supports, prefix: string, files: seq<string>, enumerated: seq<string>)
    ensures Unsupported(SiteFor(supports, prefix), files, enumerated) == [] <==>
            forall p | p in enumerated :: MustBeClaimed(supports, prefix, enumerated, p) ==>
              p in files && supports(Locate(prefix, p))
  {
    CoverageFailsClosed(SiteFor(supports, prefix), files, enumerated);
    forall p | p in enumerated
      ensures Vouched(SiteFor(supports, prefix), files, enumerated, p) <==>
              (MustBeClaimed(supports, prefix, enumerated, p) ==> p in files && supports(Locate(prefix, p)))
    {
      VouchedByName(supports, prefix, files, enumerated, p);
    }
  }

  lemma HeldBeside(supports: Supports, prefix: string, enumerated: seq<string>, directory: Located)
    ensures HoldsMigrations(SiteFor(supports, prefix), enumerated, directory) <==>
      || NamedForMigrations(directory)
      || exists q | q in enumerated :: supports(Locate(prefix, q)) && Dir(Locate(prefix, q)) == directory
  {
  }

  lemma VouchedByName(supports: Supports, prefix: string, files: seq<string>, enumerated: seq<string>, p: string)
    ensures Vouched(SiteFor(supports, prefix), files, enumerated, p) <==>
            (MustBeClaimed(supports, prefix, enumerated, p) ==> p in files && supports(Locate(prefix, p)))
  {
    HeldBeside(supports, prefix, enumerated, Dir(Locate(prefix, p)));
    CandidatesByName(Locate(prefix, p));
  }

  // ---------------------------------------------------------------- monotone

  /** Learning that more paths exist never takes one off the list. */
  lemma EnumeratingMoreKeepsUnsupported(
    site: Site, files: seq<string>, enumerated: seq<string>, more: seq<string>, p: string)
    requires forall q | q in enumerated :: q in more
    requires p in Unsupported(site, files, enumerated)
    ensures p in Unsupported(site, files, more)
  {
    UnsupportedMember(site, files, enumerated, p);
    UnsupportedMember(site, files, more, p);
    assert Directories(site, enumerated) <= Directories(site, more);
  }

  // ---------------------------------------------------------------- root naming

  /** Two enumerations that put the same files in the same places, under whatever names. */
  ghost predicate SamePlaces(a: Site, paths: seq<string>, b: Site, paths': seq<string>) {
    |paths| == |paths'| && forall i | 0 <= i < |paths| :: a.locate(paths[i]) == b.locate(paths'[i])
  }

  lemma SameDirectories(a: Site, paths: seq<string>, b: Site, paths': seq<string>)
    requires SamePlaces(a, paths, b, paths') && b == a.(locate := b.locate)
    ensures Directories(a, paths) <= Directories(b, paths')
  {
    forall d | d in Directories(a, paths) ensures d in Directories(b, paths') {
      var p :| p in paths && Marks(a, p) && d == Dir(a.locate(p));
      var i :| 0 <= i < |paths| && paths[i] == p;
      assert paths'[i] in paths' && Marks(b, paths'[i]);
    }
  }

  lemma SameClaims(a: Site, paths: seq<string>, b: Site, paths': seq<string>)
    requires SamePlaces(a, paths, b, paths') && b == a.(locate := b.locate)
    ensures AnyClaimed(a, paths) ==> AnyClaimed(b, paths')
  {
    if p :| p in paths && a.supports(a.locate(p)) {
      var i :| 0 <= i < |paths| && paths[i] == p;
      assert paths'[i] in paths';
    }
  }

  lemma SameUnsupported(
    a: Site, files: seq<string>, paths: seq<string>, b: Site, files': seq<string>, paths': seq<string>, i: nat)
    requires SamePlaces(a, paths, b, paths') && b == a.(locate := b.locate)
    requires i < |paths| && (paths[i] in files <==> paths'[i] in files')
    ensures paths[i] in Unsupported(a, files, paths) <==> paths'[i] in Unsupported(b, files', paths')
  {
    SameDirectories(a, paths, b, paths');
    SameDirectories(b, paths', a, paths);
    UnsupportedMember(a, files, paths, paths[i]);
    UnsupportedMember(b, files', paths', paths'[i]);
  }

  /**
   The outcome does not depend on how the analysis root was named: the same places, read the same
   way, give the same outcome and the same places nobody can vouch for.
   */
  lemma OutcomeIgnoresRootNaming(
    a: Site, files: seq<string>, enumerated: seq<string>, b: Site, files': seq<string>, enumerated': seq<string>)
    requires b == a.(locate := b.locate)
    requires SamePlaces(a, files, b, files') && SamePlaces(a, enumerated, b, enumerated')
    requires forall i | 0 <= i < |enumerated| :: enumerated[i] in files <==> enumerated'[i] in files'
    ensures OutcomeOf(a, files, enumerated) == OutcomeOf(b, files', enumerated')
    ensures forall i | 0 <= i < |enumerated| ::
      enumerated[i] in Unsupported(a, files, enumerated) <==> enumerated'[i] in Unsupported(b, files', enumerated')
  {
    SameClaims(a, files, b, files');
    SameClaims(b, files', a, files);
    var left, right := Unsupported(a, files, enumerated), Unsupported(b, files', enumerated');
    forall i | 0 <= i < |enumerated| ensures enumerated[i] in left <==> enumerated'[i] in right {
      SameUnsupported(a, files, enumerated, b, files', enumerated', i);
    }
    UnsupportedIsEnumerated(a, files, enumerated);
    UnsupportedIsEnumerated(b, files', enumerated');
  }

  lemma UnsupportedIsEnumerated(site: Site, files: seq<string>, enumerated: seq<string>)
    ensures Unsupported(site, files, enumerated) != [] <==>
            exists i | 0 <= i < |enumerated| :: enumerated[i] in Unsupported(site, files, enumerated)
  {
    var unsupported := Unsupported(site, files, enumerated);
    if unsupported != [] {
      UnsupportedMember(site, files, enumerated, unsupported[0]);
    }
  }

  function Under(directory: string, paths: seq<string>): seq<string> {
    Map((p: string) => Below(directory, p), paths)
  }

  lemma UnderMember(directory: string, paths: seq<string>, p: string)
    ensures Below(directory, p) in Under(directory, paths) <==> p in paths
  {
    if p in paths {
      var i :| 0 <= i < |paths| && paths[i] == p;
      assert Under(directory, paths)[i] == Below(directory, p);
    }
    if Below(directory, p) in Under(directory, paths) {
      var i :| 0 <= i < |paths| && Under(directory, paths)[i] == Below(directory, p);
      BelowInjective(directory, paths[i], p);
    }
  }

  lemma UnderSamePlaces(supports: Supports, prefix: string, directory: string, paths: seq<string>)
    ensures SamePlaces(SiteFor(supports, Below(prefix, directory)), paths,
                       SiteFor(supports, prefix), Under(directory, paths))
  {
    forall i | 0 <= i < |paths|
      ensures Locate(Below(prefix, directory), paths[i]) == Locate(prefix, Under(directory, paths)[i])
    {
      LocateIgnoresRootNaming(prefix, directory, paths[i]);
    }
  }

  /**
   Pointing the tool at a directory, or at its parent, is the same question with the same answer,
   path by path.
   */
  lemma NamingTheDirectoryChangesNothing(
    supports: Supports, prefix: string, directory: string, files: seq<string>, enumerated: seq<string>)
    ensures var a, b := SiteFor(supports, Below(prefix, directory)), SiteFor(supports, prefix);
            var files', enumerated' := Under(directory, files), Under(directory, enumerated);
      && OutcomeOf(a, files, enumerated) == OutcomeOf(b, files', enumerated')
      && (forall p | p in enumerated ::
            p in Unsupported(a, files, enumerated) <==> Below(directory, p) in Unsupported(b, files', enumerated'))
      && (Unsupported(a, files, enumerated) == [] <==> Unsupported(b, files', enumerated') == [])
  {
    var a, b := SiteFor(supports, Below(prefix, directory)), SiteFor(supports, prefix);
    var files', enumerated' := Under(directory, files), Under(directory, enumerated);
    UnderSamePlaces(supports, prefix, directory, files);
    UnderSamePlaces(supports, prefix, directory, enumerated);
    forall i | 0 <= i < |enumerated| ensures enumerated[i] in files <==> enumerated'[i] in files' {
      UnderMember(directory, files, enumerated[i]);
    }
    OutcomeIgnoresRootNaming(a, files, enumerated, b, files', enumerated');
    UnsupportedIsEnumerated(a, files, enumerated);
    UnsupportedIsEnumerated(b, files', enumerated');
  }
}
