/**
 What the guard counts in text that hides nothing from it: no quote, no dollar sign, no comment.
 Here the limits are about characters and words, without the scanner.
 */
module PlainSql {
  import opened Dominance
  import opened Complexity
  import Text

  predicate Plain(s: string) {
    && '\'' !in s && '"' !in s && '$' !in s
    && forall k | 0 <= k < |s| - 1 :: !(s[k] == '-' && s[k + 1] == '-') && !(s[k] == '/' && s[k + 1] == '*')
  }

  predicate Symbol(c: char) { c in "+-*/<>=~!@#%^&|?" }

  predicate Alphabetic(c: char) { 'a' <= c <= 'z' || 'A' <= c <= 'Z' || c == '_' }

  predicate Alphanumeric(c: char) { Alphabetic(c) || '0' <= c <= '9' }

  const OPERATOR_WORDS :=
    {"NOT", "AND", "OR", "IS", "LIKE", "ILIKE", "SIMILAR", "BETWEEN", "OVERLAPS", "IN"}

  /** The same letters, in whatever case; the name is in capitals. */
  predicate Spells(word: string, name: string) {
    |word| == |name| && forall i | 0 <= i < |word| :: word[i] == name[i] || word[i] as int == name[i] as int + 32
  }

  /** The first symbol of a run of them. */
  predicate BeginsSymbols(s: string, k: nat)
    requires k < |s|
  {
    Symbol(s[k]) && (k == 0 || !Symbol(s[k - 1]))
  }

  /** The character before `k` belongs to a word. */
  predicate WordBefore(s: string, k: nat)
    requires k <= |s|
  {
    k > 0 && Alphanumeric(s[k - 1]) && (Alphabetic(s[k - 1]) || WordBefore(s, k - 1))
  }

  /** A whole word, from its first letter to its last character. */
  predicate WholeWord(s: string, k: nat, end: nat)
    requires k < end <= |s|
  {
    && Alphabetic(s[k]) && !WordBefore(s, k)
    && (forall m | k <= m < end :: Alphanumeric(s[m]))
    && (end == |s| || !Alphanumeric(s[end]))
  }

  /** An operator begins here: a run of symbols, or a word that is one. */
  ghost predicate BeginsOperator(s: string, k: nat)
    requires k < |s|
  {
    || BeginsSymbols(s, k)
    || exists end, name | k < end <= |s| && name in OPERATOR_WORDS :: WholeWord(s, k, end) && Spells(s[k..end], name)
  }

  ghost function OperatorStarts(s: string, i: nat, j: nat): set<nat>
    requires i <= j <= |s|
  {
    set k: nat | i <= k < j && BeginsOperator(s, k)
  }

  // ---------------------------------------------------------------- token by token

  /** What one character adds to the count. */
  ghost function Mark(s: string, k: nat): seq<Token>
    requires k < |s|
  {
    if s[k] == '(' then [Open]
    else if s[k] == ')' then [Close]
    else if s[k] == ';' then [Semicolon]
    else if BeginsOperator(s, k) then [Operator]
    else []
  }

  /** What `mark` says of each position from `i` up to `j`, put together. */
  function Between(mark: nat -> seq<Token>, i: nat, j: nat): seq<Token>
    requires i <= j
    decreases j - i
  {
    if i == j then [] else mark(i) + Between(mark, i + 1, j)
  }

  lemma {:induction false} BetweenConcat(mark: nat -> seq<Token>, i: nat, m: nat, j: nat)
    requires i <= m <= j
    ensures Between(mark, i, j) == Between(mark, i, m) + Between(mark, m, j)
    decreases m - i
  {
    if i < m {
      BetweenConcat(mark, i + 1, m, j);
    }
  }

  lemma {:induction false} Silent(mark: nat -> seq<Token>, i: nat, j: nat)
    requires i <= j && forall k | i <= k < j :: mark(k) == []
    ensures Between(mark, i, j) == []
    decreases j - i
  {
    if i < j {
      Silent(mark, i + 1, j);
    }
  }

  lemma RestIsSilent(mark: nat -> seq<Token>, i: nat, end: nat)
    requires i < end && forall k | i < k < end :: mark(k) == []
    ensures Between(mark, i, end) == mark(i)
  {
    Silent(mark, i + 1, end);
  }

  ghost function MarkIn(s: string): nat -> seq<Token> { (k: nat) => if k < |s| then Mark(s, k) else [] }

  ghost function Marks(s: string, i: nat, j: nat): seq<Token>
    requires i <= j <= |s|
  {
    Between(MarkIn(s), i, j)
  }

  predicate Marking(t: Token) { !t.Other? }

  lemma SymbolIsOperatorChar(c: char)
    ensures OperatorChar(c) == Symbol(c)
    ensures Letter(c) == Alphabetic(c)
    ensures c != '$' ==> WordChar(c) == Alphanumeric(c)
    ensures Symbol(c) ==> !Alphanumeric(c) && c != '(' && c != ')' && c != ';'
    ensures Alphanumeric(c) ==> c != '(' && c != ')' && c != ';'
  {
  }

  lemma UpperSpells(word: string, name: string)
    requires forall c | c in name :: 'A' <= c <= 'Z'
    ensures Text.ToUpper(word) == name <==> Spells(word, name)
  {
    var upper := Text.ToUpper(word);
    if |word| == |name| {
      forall i | 0 <= i < |word|
        ensures upper[i] == name[i] <==> word[i] == name[i] || word[i] as int == name[i] as int + 32
      {
        assert name[i] in name;
      }
      if Spells(word, name) {
        assert upper == name;
      }
    }
  }

  lemma OperatorWordSpelled(word: string)
    ensures WordOperator(Text.ToUpper(word)) <==> exists name | name in OPERATOR_WORDS :: Spells(word, name)
  {
    var upper := Text.ToUpper(word);
    assert WordOperator(upper) <==> upper in OPERATOR_WORDS;
    forall name | name in OPERATOR_WORDS ensures Spells(word, name) <==> upper == name {
      UpperSpells(word, name);
    }
  }

  lemma {:induction false} RunIsWhole(p: char -> bool, s: string, i: nat)
    requires i <= |s|
    ensures forall m | i <= m < RunEnd(p, s, i) :: p(s[m])
    ensures RunEnd(p, s, i) < |s| ==> !p(s[RunEnd(p, s, i)])
    decreases |s| - i
  {
    if i < |s| && p(s[i]) {
      RunIsWhole(p, s, i + 1);
    }
  }

  /** Neither inside a word nor inside a run of symbols. */
  predicate Boundary(s: string, i: nat)
    requires i <= |s|
  {
    i < |s| ==>
      && (Alphanumeric(s[i]) ==> !WordBefore(s, i))
      && (Symbol(s[i]) ==> i == 0 || !Symbol(s[i - 1]))
  }

  lemma MarkOfSymbol(s: string, k: nat)
    requires k < |s| && Symbol(s[k])
    ensures Mark(s, k) == if k > 0 && Symbol(s[k - 1]) then [] else [Operator]
  {
    SymbolIsOperatorChar(s[k]);
  }

  lemma MarkInsideWord(s: string, k: nat)
    requires k < |s| && Alphanumeric(s[k]) && (Alphabetic(s[k]) ==> WordBefore(s, k))
    ensures Mark(s, k) == []
  {
    SymbolIsOperatorChar(s[k]);
  }

  lemma SymbolRun(s: string, i: nat)
    requires i < |s| && Symbol(s[i])
    ensures var end := RunEnd(OperatorChar, s, i);
      i < end && (forall k | i <= k < end :: Symbol(s[k])) && (end < |s| ==> !Symbol(s[end]))
  {
    var end := RunEnd(OperatorChar, s, i);
    RunIsWhole(OperatorChar, s, i);
    SymbolIsOperatorChar(s[i]);
    forall k | i <= k < end ensures Symbol(s[k]) {
      SymbolIsOperatorChar(s[k]);
    }
    if end < |s| {
      SymbolIsOperatorChar(s[end]);
    }
  }

  lemma SymbolsMark(s: string, i: nat, end: nat)
    requires i < end <= |s| && Boundary(s, i) && forall k | i <= k < end :: Symbol(s[k])
    ensures Marks(s, i, end) == [Operator]
  {
    forall k | i < k < end ensures MarkIn(s)(k) == [] {
      MarkOfSymbol(s, k);
    }
    RestIsSilent(MarkIn(s), i, end);
    MarkOfSymbol(s, i);
  }

  lemma NotInWord(s: string, k: nat)
    requires 0 < k <= |s| && !Alphanumeric(s[k - 1])
    ensures !WordBefore(s, k)
  {
  }

  lemma SymbolsAreOneMark(s: string, i: nat)
    requires i < |s| && Boundary(s, i) && Symbol(s[i])
    ensures var end := RunEnd(OperatorChar, s, i);
      i < end && Marks(s, i, end) == [Operator] && Boundary(s, end)
  {
    var end := RunEnd(OperatorChar, s, i);
    SymbolRun(s, i);
    SymbolsMark(s, i, end);
    SymbolIsOperatorChar(s[end - 1]);
    NotInWord(s, end);
  }

  lemma {:induction false} WordGoesOn(s: string, i: nat, k: nat)
    requires i < k <= |s| && Alphabetic(s[i]) && forall m | i <= m < k :: Alphanumeric(s[m])
    ensures WordBefore(s, k)
    decreases k
  {
    if i + 1 < k {
      WordGoesOn(s, i, k - 1);
    }
  }

  lemma {:induction false} PlainRunEnd(s: string, i: nat)
    requires Plain(s) && i <= |s|
    ensures forall m | i <= m < RunEnd(WordChar, s, i) :: Alphanumeric(s[m])
    ensures RunEnd(WordChar, s, i) < |s| ==> !Alphanumeric(s[RunEnd(WordChar, s, i)])
  {
    RunIsWhole(WordChar, s, i);
    forall k | 0 <= k < |s| ensures WordChar(s[k]) == Alphanumeric(s[k]) {
      assert s[k] in s;
      SymbolIsOperatorChar(s[k]);
    }
  }

  lemma OneEnd(s: string, k: nat, end: nat, other: nat)
    requires k < end <= |s| && k < other <= |s| && WholeWord(s, k, end) && WholeWord(s, k, other)
    ensures other == end
  {
  }

  lemma MarkOfWord(s: string, i: nat, end: nat)
    requires i < end <= |s| && WholeWord(s, i, end)
    ensures Mark(s, i) == if WordOperator(Text.ToUpper(s[i..end])) then [Operator] else []
  {
    SymbolIsOperatorChar(s[i]);
    OperatorWordSpelled(s[i..end]);
    forall other | i < other <= |s| && WholeWord(s, i, other) ensures other == end {
      OneEnd(s, i, end, other);
    }
    if name :| name in OPERATOR_WORDS && Spells(s[i..end], name) {
      assert BeginsOperator(s, i);
    }
  }

  lemma WordMarks(s: string, i: nat, end: nat)
    requires i < end <= |s| && WholeWord(s, i, end)
    ensures Marks(s, i, end) == if WordOperator(Text.ToUpper(s[i..end])) then [Operator] else []
  {
    forall k | i < k < end ensures MarkIn(s)(k) == [] {
      WordGoesOn(s, i, k);
      MarkInsideWord(s, k);
    }
    RestIsSilent(MarkIn(s), i, end);
    MarkOfWord(s, i, end);
  }

  lemma WordEnds(s: string, k: nat)
    requires 0 < k <= |s| && Alphanumeric(s[k - 1]) && (k < |s| ==> !Alphanumeric(s[k]))
    ensures Boundary(s, k)
  {
    SymbolIsOperatorChar(s[k - 1]);
  }

  lemma WordRun(s: string, i: nat)
    requires Plain(s) && i < |s| && Alphabetic(s[i]) && !WordBefore(s, i)
    ensures var end := RunEnd(WordChar, s, i);
      i < end && WholeWord(s, i, end) && Alphanumeric(s[end - 1])
  {
    SymbolIsOperatorChar(s[i]);
    PlainRunEnd(s, i);
  }

  lemma WordIsOneMark(s: string, i: nat)
    requires Plain(s) && i < |s| && Boundary(s, i) && Alphabetic(s[i])
    ensures var end := RunEnd(WordChar, s, i);
      && i < end
      && Marks(s, i, end) == (if WordOperator(Text.ToUpper(s[i..end])) then [Operator] else [])
      && Boundary(s, end)
  {
    var end := RunEnd(WordChar, s, i);
    WordRun(s, i);
    WordMarks(s, i, end);
    WordEnds(s, end);
  }

  lemma LoneMark(s: string, i: nat)
    requires i < |s| && Boundary(s, i) && !Symbol(s[i]) && !Alphabetic(s[i])
    ensures Marks(s, i, i + 1) ==
            (if s[i] == '(' then [Open] else if s[i] == ')' then [Close] else if s[i] == ';' then [Semicolon] else [])
    ensures Boundary(s, i + 1)
  {
    RestIsSilent(MarkIn(s), i, i + 1);
  }

  /** One token of plain text stands for what its characters mark. */
  lemma TokenMarks(s: string, i: nat)
    requires Plain(s) && i < |s| && Boundary(s, i)
    ensures var (t, next) := Scan(s, i);
      Marks(s, i, next) == (if t.Other? then [] else [t]) && Boundary(s, next)
  {
    assert s[i] in s;
    SymbolIsOperatorChar(s[i]);
    if Symbol(s[i]) {
      SymbolsAreOneMark(s, i);
    } else if Alphabetic(s[i]) {
      WordIsOneMark(s, i);
    } else {
      LoneMark(s, i);
    }
  }

  lemma {:induction false} TokensMarkFrom(s: string, i: nat)
    requires Plain(s) && i <= |s| && Boundary(s, i)
    ensures Filter(Marking, Tokens(s, i)) == Marks(s, i, |s|)
    decreases |s| - i
  {
    if i < |s| {
      var (t, next) := Scan(s, i);
      TokenMarks(s, i);
      TokensMarkFrom(s, next);
      BetweenConcat(MarkIn(s), i, next, |s|);
      assert Tokens(s, i) == [t] + Tokens(s, next);
    }
  }

  /**
   The tokens of plain text are its parentheses and semicolons, one for one and in order, and one
   operator for each run of symbols and each word that is an operator.
   */
  lemma TokensMark(s: string)
    requires Plain(s)
    ensures Filter(Marking, Tokens(s, 0)) == Marks(s, 0, |s|)
  {
    TokensMarkFrom(s, 0);
  }

  // ---------------------------------------------------------------- what is accepted

  lemma OtherStep(ts: seq<Token>)
    ensures Counted(ts + [Other]) == Counted(ts) && Verdict(ts + [Other]) == Verdict(ts)
  {
    Snoc(ts, Other);
    if Verdict(ts) == Accepted {
      AcceptedIsWithin(ts);
    }
  }

  lemma SameStep(a: seq<Token>, b: seq<Token>, t: Token)
    requires Counted(a) == Counted(b) && Verdict(a) == Verdict(b)
    ensures Counted(a + [t]) == Counted(b + [t]) && Verdict(a + [t]) == Verdict(b + [t])
  {
    Snoc(a, t);
    Snoc(b, t);
  }

  lemma KeptLast(front: seq<Token>, t: Token)
    ensures Filter(Marking, front + [t]) == Filter(Marking, front) + (if t.Other? then [] else [t])
  {
    FilterConcat(Marking, front, [t]);
    assert [t][1..] == [];
  }

  lemma {:induction false} OthersDoNotCount(ts: seq<Token>)
    ensures Counted(Filter(Marking, ts)) == Counted(ts) && Verdict(Filter(Marking, ts)) == Verdict(ts)
  {
    if ts != [] {
      var front, t := ts[..|ts| - 1], ts[|ts| - 1];
      assert ts == front + [t];
      OthersDoNotCount(front);
      KeptLast(front, t);
      if t.Other? {
        OtherStep(front);
        assert Filter(Marking, ts) == Filter(Marking, front);
      } else {
        SameStep(Filter(Marking, front), front, t);
      }
    }
  }

  /** How many more characters `(` than `)`. */
  function Depth(window: string): int { multiset(window)['('] as int - multiset(window)[')'] as int }

  lemma OneCharacter(window: string, c: char)
    ensures Depth([c] + window) == Depth(window) + (if c == '(' then 1 else if c == ')' then -1 else 0)
    ensures ';' in [c] + window <==> c == ';' || ';' in window
  {
    assert multiset([c] + window) == multiset{c} + multiset(window);
  }

  lemma OneMoreStart(s: string, i: nat, j: nat)
    requires i < j <= |s|
    ensures |OperatorStarts(s, i, j)| == |OperatorStarts(s, i + 1, j)| + (if BeginsOperator(s, i) then 1 else 0)
  {
    var rest := OperatorStarts(s, i + 1, j);
    assert OperatorStarts(s, i, j) == if BeginsOperator(s, i) then rest + {i} else rest;
  }

  lemma MarkCounts(s: string, k: nat, rest: seq<Token>)
    requires k < |s|
    ensures Balance(Mark(s, k) + rest) == Balance(rest) + (if s[k] == '(' then 1 else if s[k] == ')' then -1 else 0)
    ensures OneStatement(Mark(s, k) + rest) <==> s[k] != ';' && OneStatement(rest)
    ensures Count(IsOperator, Mark(s, k) + rest) ==
            Count(IsOperator, rest) + (if Mark(s, k) == [Operator] then 1 else 0)
  {
    FilterConcat(IsOpen, Mark(s, k), rest);
    FilterConcat(IsClose, Mark(s, k), rest);
    FilterConcat(IsSemicolon, Mark(s, k), rest);
    FilterConcat(IsOperator, Mark(s, k), rest);
    LoneFilters(Mark(s, k));
  }

  lemma LoneFilters(ts: seq<Token>)
    requires |ts| <= 1
    ensures |Filter(IsOpen, ts)| == if ts == [Open] then 1 else 0
    ensures |Filter(IsClose, ts)| == if ts == [Close] then 1 else 0
    ensures |Filter(IsSemicolon, ts)| == if ts == [Semicolon] then 1 else 0
    ensures |Filter(IsOperator, ts)| == if ts == [Operator] then 1 else 0
  {
    if ts != [] {
      assert ts == [ts[0]] && ts[1..] == [];
    }
  }

  lemma OperatorMark(s: string, k: nat)
    requires k < |s|
    ensures Mark(s, k) == [Operator] <==> BeginsOperator(s, k)
  {
    SymbolIsOperatorChar(s[k]);
  }

  /** The marks of a stretch count what its characters say. */
  lemma {:induction false} MarksCount(s: string, i: nat, j: nat)
    requires i <= j <= |s|
    ensures Balance(Marks(s, i, j)) == Depth(s[i..j])
    ensures OneStatement(Marks(s, i, j)) <==> ';' !in s[i..j]
    ensures Count(IsOperator, Marks(s, i, j)) == |OperatorStarts(s, i, j)|
    decreases j - i
  {
    if i < j {
      MarksCount(s, i + 1, j);
      OneMoreMark(s, i, j);
    } else {
      assert s[i..j] == [] && OperatorStarts(s, i, j) == {};
    }
  }

  lemma OneMoreMark(s: string, i: nat, j: nat)
    requires i < j <= |s|
    ensures Balance(Marks(s, i, j)) - Balance(Marks(s, i + 1, j)) == Depth(s[i..j]) - Depth(s[i + 1..j])
    ensures OneStatement(Marks(s, i, j)) <==> s[i] != ';' && OneStatement(Marks(s, i + 1, j))
    ensures ';' in s[i..j] <==> s[i] == ';' || ';' in s[i + 1..j]
    ensures Count(IsOperator, Marks(s, i, j)) - Count(IsOperator, Marks(s, i + 1, j)) ==
            |OperatorStarts(s, i, j)| - |OperatorStarts(s, i + 1, j)|
  {
    MarkCounts(s, i, Marks(s, i + 1, j));
    assert s[i..j] == [s[i]] + s[i + 1..j];
    OneCharacter(s[i + 1..j], s[i]);
    OneMoreStart(s, i, j);
    OperatorMark(s, i);
  }

  lemma WindowOfMarks(s: string, i: nat, j: nat)
    requires i <= j <= |s|
    ensures var all, a, b := Marks(s, 0, |s|), |Marks(s, 0, i)|, |Marks(s, 0, j)|;
      a <= b <= |all| && all[a..b] == Marks(s, i, j)
  {
    BetweenConcat(MarkIn(s), 0, i, j);
    BetweenConcat(MarkIn(s), 0, j, |s|);
  }

  lemma {:induction false} PositionOf(s: string, n: nat, a: nat) returns (i: nat)
    requires n <= |s| && a <= |Marks(s, 0, n)|
    ensures i <= n && |Marks(s, 0, i)| == a
  {
    if a == |Marks(s, 0, n)| {
      i := n;
    } else {
      BetweenConcat(MarkIn(s), 0, n - 1, n);
      MarkIsShort(s, n - 1);
      i := PositionOf(s, n - 1, a);
    }
  }

  lemma MarkIsShort(s: string, k: nat)
    requires k < |s|
    ensures |Between(MarkIn(s), k, k + 1)| <= 1
  {
    assert Between(MarkIn(s), k, k + 1) == MarkIn(s)(k) + Between(MarkIn(s), k + 1, k + 1);
  }

  /** Inside one statement: at most 100 levels deep and 500 operators long. */
  ghost predicate Allowed(s: string, i: nat, j: nat)
    requires i <= j <= |s|
  {
    ';' !in s[i..j] ==> Depth(s[i..j]) <= 100 && |OperatorStarts(s, i, j)| <= 500
  }

  lemma WindowAllowed(s: string, i: nat, j: nat)
    requires i <= j <= |s|
    ensures Allowed(s, i, j) <==> Modest(Marks(s, i, j))
  {
    MarksCount(s, i, j);
  }

  /**
   Plain text is accepted exactly when no stretch of it without a semicolon has over 100 more opening
   parentheses than closing ones, or over 500 runs of symbols and words that are operators.
   */
  lemma PlainAcceptedExactly(s: string)
    requires Plain(s)
    ensures Verdict(Tokens(s, 0)) == Accepted <==> forall i, j | 0 <= i <= j <= |s| :: Allowed(s, i, j)
  {
    var all := Marks(s, 0, |s|);
    TokensMark(s);
    OthersDoNotCount(Tokens(s, 0));
    AcceptedExactly(all);
    if Verdict(all) == Accepted {
      forall i, j | 0 <= i <= j <= |s| ensures Allowed(s, i, j) {
        WindowAllowed(s, i, j);
        WindowOfMarks(s, i, j);
      }
    } else {
      var a, b :| 0 <= a <= b <= |all| && !Modest(all[a..b]);
      var j := PositionOf(s, |s|, b);
      var i := PositionOf(s, j, a);
      WindowOfMarks(s, i, j);
      WindowAllowed(s, i, j);
    }
  }
}
