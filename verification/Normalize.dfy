/** The one-line, bounded form of a statement. A character here is one rune. */
module Normalize {
  import opened Text
  import opened Dominance

  const MAX_STATEMENT_LENGTH := 200
  const MARKER := "..."

  /** Which characters are white space; the source asks Unicode, and only ' ' and '.' matter here. */
  type SpaceTest = char -> bool

  predicate IsWord(sp: SpaceTest, w: string) { w != "" && forall c | c in w :: !sp(c) }

  predicate EndsOpen(sp: SpaceTest, s: string) { s != "" && !sp(s[|s| - 1]) }

  /** A character that belongs to a word goes onto the last one, or starts one. */
  function Extend(words: seq<string>, open: bool, c: char): seq<string>
    requires open ==> words != []
  {
    if open then words[..|words| - 1] + [words[|words| - 1] + [c]] else words + [[c]]
  }

  /** The maximal runs of characters that are not white space. */
  function Words(sp: SpaceTest, s: string): (r: seq<string>)
    ensures EndsOpen(sp, s) ==> r != []
  {
    if s == [] then []
    else
      var n := |s| - 1;
      var before := Words(sp, s[..n]);
      if sp(s[n]) then before else Extend(before, EndsOpen(sp, s[..n]), s[n])
  }

  lemma {:induction false} WordsAreWords(sp: SpaceTest, s: string)
    ensures forall w | w in Words(sp, s) :: IsWord(sp, w)
  {
    if s != [] {
      var n := |s| - 1;
      WordsAreWords(sp, s[..n]);
      var before := Words(sp, s[..n]);
      if !sp(s[n]) && EndsOpen(sp, s[..n]) {
        assert IsWord(sp, before[|before| - 1]);
        assert IsWord(sp, before[|before| - 1] + [s[n]]);
      }
    }
  }

  function Truncate(s: string): string {
    if |s| <= MAX_STATEMENT_LENGTH then s else s[..MAX_STATEMENT_LENGTH - |MARKER|] + MARKER
  }

  function Joined(sp: SpaceTest, s: string): string { Join(Words(sp, s), " ") }

  /** The words with one space between, cut to the bound with the marker inside it. */
  function Normalized(sp: SpaceTest, s: string): string { Truncate(Joined(sp, s)) }

  lemma {:induction false} JoinAppend(words: seq<string>, w: string)
    ensures Join(words + [w], " ") == if words == [] then w else Join(words, " ") + " " + w
  {
    if |words| >= 1 {
      assert (words + [w])[1..] == words[1..] + [w];
      JoinAppend(words[1..], w);
      if |words| > 1 {
        assert words[0] + " " + (Join(words[1..], " ") + " " + w) == words[0] + " " + Join(words[1..], " ") + " " + w;
      }
    }
  }

  lemma JoinExtend(words: seq<string>, open: bool, c: char)
    requires open ==> words != []
    ensures Join(Extend(words, open, c), " ") ==
            if open || words == [] then Join(words, " ") + [c] else Join(words, " ") + " " + [c]
  {
    if open {
      var front, last := words[..|words| - 1], words[|words| - 1];
      assert words == front + [last];
      JoinAppend(front, last);
      JoinAppend(front, last + [c]);
      assert Join(front, " ") + " " + (last + [c]) == Join(front, " ") + " " + last + [c];
    } else {
      JoinAppend(words, [c]);
    }
  }

  lemma JoinedEmpty(sp: SpaceTest, s: string)
    ensures Joined(sp, s) == "" <==> Words(sp, s) == []
  {
    WordsAreWords(sp, s);
    var words := Words(sp, s);
    if words != [] {
      assert IsWord(sp, words[0]);
    }
  }

  /** One character: a space changes nothing, and anything else starts or continues a word. */
  lemma JoinedStep(sp: SpaceTest, s: string, c: char)
    ensures Joined(sp, s + [c]) ==
        if sp(c) then Joined(sp, s)
        else if EndsOpen(sp, s) || Joined(sp, s) == "" then Joined(sp, s) + [c]
        else Joined(sp, s) + " " + [c]
  {
    assert (s + [c])[..|s|] == s;
    JoinedEmpty(sp, s);
    if !sp(c) {
      JoinExtend(Words(sp, s), EndsOpen(sp, s), c);
    }
  }

  method NormalizeStatement(sp: SpaceTest, s: string) returns (r: string)
    ensures r == Normalized(sp, s)
  {
    var out, space := "", false;
    for i := 0 to |s|
      invariant out == Joined(sp, s[..i])
      invariant space <==> i > 0 && !EndsOpen(sp, s[..i])
    {
      assert s[..i + 1] == s[..i] + [s[i]];
      JoinedStep(sp, s[..i], s[i]);
      if sp(s[i]) {
        space := true;
        continue;
      }
      if space && |out| > 0 {
        out := out + " ";
      }
      space := false;
      out := out + [s[i]];
    }
    assert s[..|s|] == s;
    if |out| <= MAX_STATEMENT_LENGTH {
      return out;
    }
    return out[..MAX_STATEMENT_LENGTH - |MARKER|] + MARKER;
  }

  // ---------------------------------------------------------------- what it promises

  /** Single plain spaces, never first, possibly one last. */
  predicate Spaced(sp: SpaceTest, s: string) {
    forall i | 0 <= i < |s| && sp(s[i]) :: s[i] == ' ' && i > 0 && !sp(s[i - 1])
  }

  lemma {:induction false} SpacedIsFixed(sp: SpaceTest, s: string)
    requires Spaced(sp, s)
    ensures Joined(sp, s) == if s == "" || EndsOpen(sp, s) then s else s[..|s| - 1]
  {
    if s != [] {
      var n := |s| - 1;
      SpacedIsFixed(sp, s[..n]);
      assert s == s[..n] + [s[n]];
      JoinedStep(sp, s[..n], s[n]);
      if n > 0 && !sp(s[n]) && sp(s[n - 1]) {
        assert s[..n] == s[..n - 1] + " ";
        assert s[..n][..n - 1] == s[..n - 1];
      }
    }
  }

  lemma {:induction false} JoinedIsSpaced(sp: SpaceTest, s: string)
    ensures Spaced(sp, Joined(sp, s))
    ensures Joined(sp, s) == "" || EndsOpen(sp, Joined(sp, s))
  {
    if s != [] {
      var n := |s| - 1;
      JoinedIsSpaced(sp, s[..n]);
      assert s == s[..n] + [s[n]];
      JoinedStep(sp, s[..n], s[n]);
      if !sp(s[n]) {
        SpacedAppend(sp, Joined(sp, s[..n]), s[n]);
      }
    }
  }

  lemma SpacedAppend(sp: SpaceTest, s: string, c: char)
    requires Spaced(sp, s) && (s == "" || EndsOpen(sp, s)) && !sp(c)
    ensures Spaced(sp, s + [c]) && EndsOpen(sp, s + [c])
    ensures s != "" ==> Spaced(sp, s + " " + [c]) && EndsOpen(sp, s + " " + [c])
  {
  }

  lemma TruncatedIsSpaced(sp: SpaceTest, s: string)
    requires Spaced(sp, s) && (s == "" || EndsOpen(sp, s)) && !sp('.')
    ensures Spaced(sp, Truncate(s)) && (Truncate(s) == "" || EndsOpen(sp, Truncate(s)))
    ensures |Truncate(s)| <= MAX_STATEMENT_LENGTH
  {
  }

  /** White space aside, not a character is lost, added or moved. */
  lemma {:induction false} JoiningKeepsCharacters(sp: SpaceTest, s: string)
    requires sp(' ')
    ensures Filter((c: char) => !sp(c), Joined(sp, s)) == Filter((c: char) => !sp(c), s)
  {
    if s != [] {
      var n, keep := |s| - 1, (c: char) => !sp(c);
      JoiningKeepsCharacters(sp, s[..n]);
      assert s == s[..n] + [s[n]];
      JoinedStep(sp, s[..n], s[n]);
      FilterConcat(keep, s[..n], [s[n]]);
      FilterConcat(keep, Joined(sp, s[..n]), [s[n]]);
      FilterConcat(keep, Joined(sp, s[..n]), " ");
      FilterConcat(keep, Joined(sp, s[..n]) + " ", [s[n]]);
      Lone(keep, s[n]);
      Lone(keep, ' ');
    }
  }

  lemma Lone(keep: char -> bool, c: char)
    ensures Filter(keep, [c]) == if keep(c) then [c] else []
  {
    assert [c][1..] == [];
  }

  /** A text of up to 200 characters is kept whole; of a longer one, the first 197 and three dots. */
  lemma LongStatementsAreCut(sp: SpaceTest, s: string)
    ensures |Joined(sp, s)| <= 200 ==> Normalized(sp, s) == Joined(sp, s)
    ensures |Joined(sp, s)| > 200 ==> Normalized(sp, s) == Joined(sp, s)[..197] + "..."
  {
  }

  /** Normalizing is final, and bounded. */
  lemma NormalizedIsIdempotent(sp: SpaceTest, s: string)
    requires !sp('.')
    ensures Normalized(sp, Normalized(sp, s)) == Normalized(sp, s)
    ensures |Normalized(sp, s)| <= 200
  {
    JoinedIsSpaced(sp, s);
    TruncatedIsSpaced(sp, Joined(sp, s));
    SpacedIsFixed(sp, Normalized(sp, s));
  }

  lemma WordsLast(sp: SpaceTest, s: string, c: char)
    ensures Words(sp, s + [c]) == if sp(c) then Words(sp, s) else Extend(Words(sp, s), EndsOpen(sp, s), c)
  {
    assert (s + [c])[..|s|] == s;
  }

  lemma EndsOpenAcross(sp: SpaceTest, left: string, b: string)
    requires left != "" && !EndsOpen(sp, left)
    ensures EndsOpen(sp, left + b) == EndsOpen(sp, b)
  {
  }

  lemma {:induction false} WordsAfterSpace(sp: SpaceTest, left: string, b: string)
    requires left != "" && !EndsOpen(sp, left)
    ensures Words(sp, left + b) == Words(sp, left) + Words(sp, b)
  {
    if b == [] {
      assert left + b == left;
    } else {
      var front, last := b[..|b| - 1], b[|b| - 1];
      assert b == front + [last];
      assert left + b == (left + front) + [last];
      WordsAfterSpace(sp, left, front);
      EndsOpenAcross(sp, left, front);
      WordsLast(sp, left + front, last);
      WordsLast(sp, front, last);
      if !sp(last) {
        ExtendAcross(Words(sp, left), Words(sp, front), EndsOpen(sp, front), last);
      }
    }
  }

  /** White space separates words and is otherwise invisible. */
  lemma WordsAcross(sp: SpaceTest, a: string, c: char, b: string)
    requires sp(c)
    ensures Words(sp, a + [c] + b) == Words(sp, a) + Words(sp, b)
  {
    WordsLast(sp, a, c);
    WordsAfterSpace(sp, a + [c], b);
  }

  lemma ExtendAcross(a: seq<string>, b: seq<string>, open: bool, c: char)
    requires open ==> b != []
    ensures Extend(a + b, open, c) == a + Extend(b, open, c)
  {
    if open {
      assert (a + b)[..|a + b| - 1] == a + b[..|b| - 1];
    }
  }

  /** Reformatting a statement keeps its normalized form: which space it is, how many, and where they pad. */
  lemma ReformattingChangesNothing(sp: SpaceTest, a: string, c: char, d: char, b: string)
    requires sp(c) && sp(d)
    ensures Normalized(sp, a + [c] + b) == Normalized(sp, a + [d] + b)
    ensures Normalized(sp, a + [c] + [d] + b) == Normalized(sp, a + [c] + b)
    ensures Normalized(sp, [c] + a) == Normalized(sp, a) == Normalized(sp, a + [c])
  {
    WordsAcross(sp, a, c, b);
    WordsAcross(sp, a, d, b);
    WordsAcross(sp, a + [c], d, b);
    WordsAcross(sp, a, c, []);
    WordsAcross(sp, [], c, a);
    assert a + [c] + [] == a + [c];
    assert [] + [c] + a == [c] + a;
    assert [] + Words(sp, a) == Words(sp, a) == Words(sp, a) + [];
  }
}
