/**
 Policy globs: `**` spans any number of whole segments, everything else matches one segment.

 Matching within one segment is the library's; here it is any relation `seg` between a pattern
 segment and a name segment.
 */
module Glob {
  import opened Text
  import opened Dominance
  import opened Paths

  type SegmentMatcher = (string, string) -> bool

  const STARS := "**"

  // ---------------------------------------------------------------- segments

  function Collapse(parts: seq<string>): seq<string> {
    if parts == [] then []
    else
      var n := |parts| - 1;
      var out := Collapse(parts[..n]);
      if parts[n] == STARS && out != [] && out[|out| - 1] == STARS then out else out + [parts[n]]
  }

  function KeptParts(s: string): seq<string> { Filter(Kept, Split(s, '/')) }

  lemma CollapseStep(parts: seq<string>, i: nat)
    requires i < |parts|
    ensures var out, p := Collapse(Filter(Kept, parts[..i])), parts[i];
      Collapse(Filter(Kept, parts[..i + 1])) ==
      if !Kept(p) || (p == STARS && out != [] && out[|out| - 1] == STARS) then out else out + [p]
  {
    FilterStep(Kept, parts, i);
    var kept := Filter(Kept, parts[..i]);
    assert (kept + [parts[i]])[..|kept|] == kept && kept + [] == kept;
  }

  method Segments(s: string) returns (out: seq<string>)
    ensures out == Collapse(KeptParts(s))
  {
    var parts := Split(s, '/');
    out := [];
    for i := 0 to |parts|
      invariant out == Collapse(Filter(Kept, parts[..i]))
    {
      var p := parts[i];
      CollapseStep(parts, i);
      if p == "" || p == "." {
        continue;
      }
      if p == STARS && |out| > 0 && out[|out| - 1] == STARS {
        continue;
      }
      out := out + [p];
    }
    assert parts[..|parts|] == parts;
  }

  // ---------------------------------------------------------------- meaning

  predicate Matches(seg: SegmentMatcher, pattern: seq<string>, name: seq<string>)
    decreases |pattern|
  {
    if pattern == [] then name == []
    else if pattern[0] == STARS then exists i | 0 <= i <= |name| :: Matches(seg, pattern[1..], name[i..])
    else name != [] && seg(pattern[0], name[0]) && Matches(seg, pattern[1..], name[1..])
  }

  function Flatten(runs: seq<seq<string>>): seq<string> {
    if runs == [] then [] else runs[0] + Flatten(runs[1..])
  }

  /** The name cut into one run per pattern segment: any run under `**`, one match elsewhere. */
  ghost predicate IsSplit(seg: SegmentMatcher, pattern: seq<string>, name: seq<string>, runs: seq<seq<string>>) {
    && |runs| == |pattern|
    && Flatten(runs) == name
    && forall j | 0 <= j < |pattern| ::
         pattern[j] == STARS || (|runs[j]| == 1 && seg(pattern[j], runs[j][0]))
  }

  lemma {:induction false} MatchesGivesSplit(seg: SegmentMatcher, pattern: seq<string>, name: seq<string>)
    requires Matches(seg, pattern, name)
    ensures exists runs :: IsSplit(seg, pattern, name, runs)
    decreases |pattern|
  {
    if pattern == [] {
      assert IsSplit(seg, pattern, name, []);
    } else {
      var i: nat := if pattern[0] == STARS
                    then var i: nat :| i <= |name| && Matches(seg, pattern[1..], name[i..]); i
                    else 1;
      MatchesGivesSplit(seg, pattern[1..], name[i..]);
      var rest :| IsSplit(seg, pattern[1..], name[i..], rest);
      var runs := [name[..i]] + rest;
      assert runs[1..] == rest && name == name[..i] + name[i..];
      assert IsSplit(seg, pattern, name, runs);
    }
  }

  lemma {:induction false} SplitGivesMatches(
    seg: SegmentMatcher, pattern: seq<string>, name: seq<string>, runs: seq<seq<string>>)
    requires IsSplit(seg, pattern, name, runs)
    ensures Matches(seg, pattern, name)
    decreases |pattern|
  {
    if pattern != [] {
      var i := |runs[0]|;
      assert name == runs[0] + Flatten(runs[1..]);
      assert name[i..] == Flatten(runs[1..]);
      assert IsSplit(seg, pattern[1..], name[i..], runs[1..]);
      SplitGivesMatches(seg, pattern[1..], name[i..], runs[1..]);
    }
  }

  /** The backtracking search finds a split exactly when there is one. */
  lemma MatchesMeansSplit(seg: SegmentMatcher, pattern: seq<string>, name: seq<string>)
    ensures Matches(seg, pattern, name) <==> exists runs :: IsSplit(seg, pattern, name, runs)
  {
    if Matches(seg, pattern, name) {
      MatchesGivesSplit(seg, pattern, name);
    }
    if runs :| IsSplit(seg, pattern, name, runs) {
      SplitGivesMatches(seg, pattern, name, runs);
    }
  }

  lemma {:induction false} AdjacentStars(seg: SegmentMatcher, before: seq<string>, after: seq<string>, name: seq<string>)
    ensures Matches(seg, before + [STARS, STARS] + after, name) <==> Matches(seg, before + [STARS] + after, name)
    decreases |before|
  {
    var two, one := before + [STARS, STARS] + after, before + [STARS] + after;
    if before == [] {
      assert two[1..] == one && one[1..] == after;
      if Matches(seg, one, name) {
        assert name[0..] == name;
      }
      if Matches(seg, two, name) {
        var i :| 0 <= i <= |name| && Matches(seg, one, name[i..]);
        var k :| 0 <= k <= |name[i..]| && Matches(seg, after, name[i..][k..]);
        assert name[i..][k..] == name[i + k..];
      }
    } else {
      assert two[1..] == before[1..] + [STARS, STARS] + after && one[1..] == before[1..] + [STARS] + after;
      forall i | 0 <= i <= |name| {
        AdjacentStars(seg, before[1..], after, name[i..]);
      }
    }
  }

  lemma {:induction false} CollapseWithin(seg: SegmentMatcher, parts: seq<string>, after: seq<string>, name: seq<string>)
    ensures Matches(seg, Collapse(parts) + after, name) <==> Matches(seg, parts + after, name)
    decreases |parts|
  {
    if parts != [] {
      var n := |parts| - 1;
      var out := Collapse(parts[..n]);
      CollapseWithin(seg, parts[..n], [parts[n]] + after, name);
      assert parts + after == parts[..n] + ([parts[n]] + after);
      if parts[n] == STARS && out != [] && out[|out| - 1] == STARS {
        var a := out[..|out| - 1];
        AdjacentStars(seg, a, after, name);
        assert out + after == a + [STARS] + after;
        assert out + ([STARS] + after) == a + [STARS, STARS] + after;
      } else {
        assert Collapse(parts) + after == out + ([parts[n]] + after);
      }
    }
  }

  /** Collapsing runs of `**` in a pattern changes no answer. */
  lemma CollapsePreservesMatches(seg: SegmentMatcher, pattern: seq<string>, name: seq<string>)
    ensures Matches(seg, Collapse(pattern), name) <==> Matches(seg, pattern, name)
  {
    CollapseWithin(seg, pattern, [], name);
    assert Collapse(pattern) + [] == Collapse(pattern) && pattern + [] == pattern;
  }

  predicate NoAdjacentStars(parts: seq<string>) {
    forall i | 0 < i < |parts| :: !(parts[i - 1] == STARS && parts[i] == STARS)
  }

  lemma {:induction false} CollapseShrinks(parts: seq<string>)
    ensures |Collapse(parts)| <= |parts|
  {
    if parts != [] {
      CollapseShrinks(parts[..|parts| - 1]);
    }
  }

  lemma {:induction false} CollapseKeepsLast(parts: seq<string>)
    requires parts != []
    ensures Collapse(parts) != [] && Collapse(parts)[|Collapse(parts)| - 1] == parts[|parts| - 1]
  {
    var n := |parts| - 1;
    if n > 0 {
      CollapseKeepsLast(parts[..n]);
    }
  }

  /** The last segment is dropped exactly when it repeats a `**`. */
  lemma CollapseLast(parts: seq<string>)
    requires parts != []
    ensures var n := |parts| - 1;
      Collapse(parts) ==
      if n > 0 && parts[n - 1] == STARS && parts[n] == STARS then Collapse(parts[..n])
      else Collapse(parts[..n]) + [parts[n]]
  {
    var n := |parts| - 1;
    if n > 0 {
      CollapseKeepsLast(parts[..n]);
    }
  }

  lemma NoAdjacentStarsLast(parts: seq<string>)
    requires parts != []
    ensures var n := |parts| - 1;
      NoAdjacentStars(parts) <==>
      NoAdjacentStars(parts[..n]) && !(n > 0 && parts[n - 1] == STARS && parts[n] == STARS)
  {
    var n := |parts| - 1;
    if NoAdjacentStars(parts[..n]) {
      forall i | 0 < i < n ensures !(parts[i - 1] == STARS && parts[i] == STARS) {
        assert parts[i - 1] == parts[..n][i - 1] && parts[i] == parts[..n][i];
      }
    }
  }

  /** Both sides go through the same splitter; a name survives it exactly without adjacent `**`. */
  lemma {:induction false} CollapseFixes(parts: seq<string>)
    ensures Collapse(parts) == parts <==> NoAdjacentStars(parts)
  {
    if parts != [] {
      var n := |parts| - 1;
      CollapseFixes(parts[..n]);
      CollapseShrinks(parts[..n]);
      CollapseLast(parts);
      NoAdjacentStarsLast(parts);
      assert parts == parts[..n] + [parts[n]];
    }
  }

  // ---------------------------------------------------------------- the search

  function Pow(base: nat, exponent: nat): nat {
    if exponent == 0 then 1 else base * Pow(base, exponent - 1)
  }

  lemma {:induction false} PowMonotone(a: nat, b: nat, k: nat)
    requires 1 <= a <= b
    ensures 1 <= Pow(a, k) <= Pow(b, k)
  {
    if k > 0 {
      PowMonotone(a, b, k - 1);
      MulMonotone(a, b, Pow(a, k - 1), Pow(b, k - 1));
    }
  }

  lemma MulMonotone(a: nat, b: nat, x: nat, y: nat)
    requires 1 <= a <= b && 1 <= x <= y
    ensures 1 <= a * x <= b * y
  {
    assert a * x <= b * x by { assert (b - a) * x >= 0; }
    assert b * x <= b * y by { assert b * (y - x) >= 0; }
    assert a * x >= 1 * x by { assert (a - 1) * x >= 0; }
  }

  function StarCount(pattern: seq<string>): nat {
    if pattern == [] then 0 else (if pattern[0] == STARS then 1 else 0) + StarCount(pattern[1..])
  }

  /**
   The search itself, and its cost: `calls` counts every invocation, this one included. Its degree
   is the number of `**` in the pattern.
   */
  method MatchSegments(seg: SegmentMatcher, pattern0: seq<string>, name0: seq<string>)
    returns (ok: bool, ghost calls: nat)
    ensures ok <==> Matches(seg, pattern0, name0)
    ensures 1 <= calls <= Pow(|name0| + 2, StarCount(pattern0))
    decreases |pattern0|
  {
    var pattern, name := pattern0, name0;
    calls := 1;
    PowMonotone(1, |name0| + 2, StarCount(pattern0));
    while |pattern| > 0
      invariant Matches(seg, pattern, name) <==> Matches(seg, pattern0, name0)
      invariant |pattern| <= |pattern0| && |name| <= |name0|
      invariant StarCount(pattern) == StarCount(pattern0)
      invariant calls == 1
      decreases |pattern|
    {
      if pattern[0] == STARS {
        ghost var step := Pow(|name0| + 2, StarCount(pattern0) - 1);
        for i := 0 to |name| + 1
          invariant 1 <= calls <= 1 + i * step
          invariant forall j | 0 <= j < i :: !Matches(seg, pattern[1..], name[j..])
        {
          var found, spent := MatchSegments(seg, pattern[1..], name[i..]);
          PowMonotone(|name[i..]| + 2, |name0| + 2, StarCount(pattern[1..]));
          CallsSoFar(calls, spent, i, step, |name0|);
          calls := calls + spent;
          if found {
            return true, calls;
          }
        }
        CallsSoFar(calls, 0, |name|, step, |name0|);
        return false, calls;
      }
      if |name| == 0 {
        return false, calls;
      }
      if !seg(pattern[0], name[0]) {
        return false, calls;
      }
      pattern, name := pattern[1..], name[1..];
    }
    ok := |name| == 0;
  }

  lemma CallsSoFar(calls: nat, spent: nat, i: nat, step: nat, n: nat)
    requires i <= n && spent <= step && 1 <= step
    requires calls <= 1 + i * step || (spent == 0 && calls <= 1 + (i + 1) * step)
    ensures calls + spent <= 1 + (i + 1) * step
    ensures calls + spent <= (n + 2) * step
  {
    assert (i + 1) * step == i * step + step;
    assert (n + 2) * step == (i + 1) * step + (n - i + 1) * step;
    assert (n - i + 1) * step >= step;
  }

  // ---------------------------------------------------------------- the matcher

  /** Whether a pattern covers a located path. */
  predicate Match(seg: SegmentMatcher, pattern: string, at: Located) {
    Matches(seg, Collapse(KeptParts(pattern)), Collapse(at))
  }

  method MatchPath(seg: SegmentMatcher, pattern: string, at: Located) returns (ok: bool)
    requires forall part | part in at :: Kept(part) && '/' !in part
    ensures ok <==> Match(seg, pattern, at)
  {
    var left := Segments(pattern);
    var right := Segments(Join(at, "/"));
    SplitJoined(at);
    ghost var calls;
    ok, calls := MatchSegments(seg, left, right);
  }

  lemma {:induction false} SplitJoined(at: Located)
    requires forall part | part in at :: Kept(part) && '/' !in part
    ensures KeptParts(Join(at, "/")) == at
  {
    if at == [] {
    } else if |at| == 1 {
      SplitPlain(at[0], '/');
      assert at == [at[0]];
    } else {
      SplitJoined(at[1..]);
      SplitAcross(at[0], Join(at[1..], "/"), '/');
      SplitPlain(at[0], '/');
      assert at[0] + "/" + Join(at[1..], "/") == at[0] + ['/'] + Join(at[1..], "/");
      FilterConcat(Kept, [at[0]], Split(Join(at[1..], "/"), '/'));
      assert at[0] in at;
    }
  }

  /**
   What a pattern covers, said without the search or the collapsing: the path splits into runs
   that follow the pattern as written, less its empty and "." segments.
   */
  lemma MatchMeaning(seg: SegmentMatcher, pattern: string, at: Located)
    requires NoAdjacentStars(at)
    ensures Match(seg, pattern, at) <==> exists runs :: IsSplit(seg, KeptParts(pattern), at, runs)
  {
    CollapseFixes(at);
    CollapsePreservesMatches(seg, KeptParts(pattern), at);
    MatchesMeansSplit(seg, KeptParts(pattern), at);
  }

  function Wildcards(n: nat): seq<string> { seq(n, i => "*") }

  lemma {:induction false} WildcardsCount(seg: SegmentMatcher, n: nat, name: seq<string>)
    requires forall part | part in name :: seg("*", part)
    ensures Matches(seg, Wildcards(n), name) <==> |name| == n
    decreases n
  {
    if n > 0 {
      assert Wildcards(n)[1..] == Wildcards(n - 1);
      assert Wildcards(n)[0] == "*" != STARS;
      if name != [] {
        WildcardsCount(seg, n - 1, name[1..]);
      }
    }
  }

  lemma {:induction false} CollapseInventsNothing(parts: seq<string>)
    ensures forall part | part in Collapse(parts) :: part in parts
  {
    if parts != [] {
      CollapseInventsNothing(parts[..|parts| - 1]);
    }
  }

  /**
   The paths it misreads are exactly those that themselves contain `**` twice in a row: one `*`
   per segment always splits the path, and covers it only without such a pair.
   */
  lemma AdjacentStarsInNameLost(seg: SegmentMatcher, at: Located)
    requires forall part | part in at :: seg("*", part)
    ensures var pattern := Join(Wildcards(|at|), "/");
      && (exists runs :: IsSplit(seg, KeptParts(pattern), at, runs))
      && (Match(seg, pattern, at) <==> NoAdjacentStars(at))
  {
    var stars := Wildcards(|at|);
    SplitJoined(stars);
    WildcardsCount(seg, |at|, at);
    MatchesMeansSplit(seg, stars, at);
    CollapseFixes(stars);
    CollapseInventsNothing(at);
    WildcardsCount(seg, |at|, Collapse(at));
    CollapseFixes(at);
    if |Collapse(at)| == |at| {
      CollapseShortens(at);
    }
  }

  lemma {:induction false} CollapseShortens(parts: seq<string>)
    requires |Collapse(parts)| == |parts|
    ensures Collapse(parts) == parts
  {
    if parts != [] {
      var n := |parts| - 1;
      CollapseShrinks(parts[..n]);
      CollapseShortens(parts[..n]);
      assert parts == parts[..n] + [parts[n]];
    }
  }
}
