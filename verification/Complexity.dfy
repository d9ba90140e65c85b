/**
 The structural guard in front of the SQL parser: a byte scanner that refuses a statement with too
 many operators or too deep a nesting. It is specified against its own tokens, which are not
 PostgreSQL's.
 */
module Complexity {
  import opened Domain
  import opened Dominance
  import Text

  const MAX_NESTING_DEPTH := 100
  const MAX_OPERATORS := 500

  /** What the guard makes of a stretch of input; everything it skips is Other. */
  datatype Token = Open | Close | Semicolon | Operator | Other

  /** Acceptance, or the statement refused and the limit it broke. */
  datatype GuardResult = Accepted | NestsTooDeep(statement: nat) | ChainsTooMany(statement: nat)

  // ---------------------------------------------------------------- where each stretch ends

  predicate OperatorChar(c: char) {
    || c == '+' || c == '-' || c == '*' || c == '/' || c == '<' || c == '>' || c == '=' || c == '~'
    || c == '!' || c == '@' || c == '#' || c == '%' || c == '^' || c == '&' || c == '|' || c == '?'
  }

  predicate Letter(c: char) { c == '_' || 'a' <= c <= 'z' || 'A' <= c <= 'Z' }

  predicate WordChar(c: char) { Letter(c) || c == '$' || '0' <= c <= '9' }

  predicate WordOperator(word: string) {
    || word == "NOT" || word == "AND" || word == "OR" || word == "IS" || word == "LIKE" || word == "ILIKE"
    || word == "SIMILAR" || word == "BETWEEN" || word == "OVERLAPS" || word == "IN"
  }

  predicate PairAt(s: string, i: nat, a: char, b: char) { i + 1 < |s| && s[i] == a && s[i + 1] == b }

  predicate Occurs(s: string, i: nat, pattern: string) { i + |pattern| <= |s| && s[i..i + |pattern|] == pattern }

  /** Past the run of characters satisfying `p` that starts at `i`. */
  function RunEnd(p: char -> bool, s: string, i: nat): (end: nat)
    requires i <= |s|
    ensures i <= end <= |s|
    ensures i < |s| && p(s[i]) ==> i < end
    decreases |s| - i
  {
    if i < |s| && p(s[i]) then RunEnd(p, s, i + 1) else i
  }

  /** The first occurrence of `pattern` at or after `i`. */
  function Find(s: string, i: nat, pattern: string): (r: Option<nat>)
    requires i <= |s|
    ensures r.Some? ==> i <= r.value && r.value + |pattern| <= |s|
    decreases |s| - i
  {
    if Occurs(s, i, pattern) then Some(i)
    else if i == |s| then None
    else Find(s, i + 1, pattern)
  }

  /** A line comment takes its own newline. */
  function LineCommentEnd(s: string, i: nat): (end: nat)
    requires i < |s|
    ensures i < end <= |s|
  {
    match Find(s, i, "\n") case Some(k) => k + 1 case None => |s|
  }

  /** Past the comment that closes the last of `depth` levels. */
  function CommentEnd(s: string, i: nat, depth: int): (end: nat)
    requires i <= |s|
    ensures i <= end <= |s| && (i < |s| ==> i < end)
    decreases |s| - i
  {
    if i == |s| then i
    else if PairAt(s, i, '/', '*') then CommentEnd(s, i + 2, depth + 1)
    else if PairAt(s, i, '*', '/') then if depth == 1 then i + 2 else CommentEnd(s, i + 2, depth - 1)
    else CommentEnd(s, i + 1, depth)
  }

  /** Past the quote that closes a literal already opened; a doubled quote does not. */
  function LiteralEnd(s: string, i: nat, quote: char): (end: nat)
    requires i <= |s|
    ensures i <= end <= |s|
    decreases |s| - i
  {
    if i == |s| then i
    else if s[i] != quote then LiteralEnd(s, i + 1, quote)
    else if PairAt(s, i, quote, quote) then LiteralEnd(s, i + 2, quote)
    else i + 1
  }

  /** Past the opening `$tag$`, the tag letters and underscores only: never a positional parameter. */
  function TagEnd(s: string, i: nat): (r: Option<nat>)
    requires i < |s|
    ensures r.Some? ==> i + 2 <= r.value <= |s|
  {
    match Find(s, i + 1, "$")
    case None => None
    case Some(close) => if RunEnd(Letter, s, i + 1) < close then None else Some(close + 1)
  }

  /** Past the closing tag; unterminated, the body is the rest of the input. */
  function BodyEnd(s: string, i: nat, tag: string): (end: nat)
    requires i <= |s|
    ensures i <= end <= |s|
  {
    match Find(s, i, tag) case None => |s| case Some(k) => k + |tag|
  }

  function DollarEnd(s: string, i: nat): (r: Option<nat>)
    requires i < |s|
    ensures r.Some? ==> i < r.value <= |s|
  {
    match TagEnd(s, i) case None => None case Some(end) => Some(BodyEnd(s, end, s[i..end]))
  }

  // ---------------------------------------------------------------- tokens

  /** The token at `i`, and the position after it. */
  function Scan(s: string, i: nat): (r: (Token, nat))
    requires i < |s|
    ensures i < r.1 <= |s|
  {
    if PairAt(s, i, '-', '-') then (Other, LineCommentEnd(s, i))
    else if PairAt(s, i, '/', '*') then (Other, CommentEnd(s, i, 0))
    else if s[i] == '\'' || s[i] == '"' then (Other, LiteralEnd(s, i + 1, s[i]))
    else if s[i] == '$' then (Other, match DollarEnd(s, i) case Some(end) => end case None => i + 1)
    else if s[i] == '(' then (Open, i + 1)
    else if s[i] == ')' then (Close, i + 1)
    else if s[i] == ';' then (Semicolon, i + 1)
    else if OperatorChar(s[i]) then (Operator, RunEnd(OperatorChar, s, i))
    else if Letter(s[i]) then
      var end := RunEnd(WordChar, s, i);
      (if WordOperator(Text.ToUpper(s[i..end])) then Operator else Other, end)
    else (Other, i + 1)
  }

  /** The tokens from `i` on. */
  function Tokens(s: string, i: nat): seq<Token>
    requires i <= |s|
    decreases |s| - i
  {
    if i == |s| then [] else var r := Scan(s, i); [r.0] + Tokens(s, r.1)
  }

  // ---------------------------------------------------------------- the counters, and what they refuse

  /** Nesting and operators so far in the current statement, and its number. */
  datatype Counters = Counters(depth: nat, operators: nat, statement: nat)
  {
    /** Stray closings are forgiven; a new statement starts afresh. */
    function Step(t: Token): Counters {
      match t
      case Open => this.(depth := depth + 1)
      case Close => if depth > 0 then this.(depth := depth - 1) else this
      case Semicolon => Counters(0, 0, statement + 1)
      case Operator => this.(operators := operators + 1)
      case Other => this
    }

    function Judge(): GuardResult {
      if depth > MAX_NESTING_DEPTH then NestsTooDeep(statement)
      else if operators > MAX_OPERATORS then ChainsTooMany(statement)
      else Accepted
    }
  }

  function Counted(ts: seq<Token>): Counters {
    if ts == [] then Counters(0, 0, 1) else Counted(ts[..|ts| - 1]).Step(ts[|ts| - 1])
  }

  /** The first prefix over a limit decides. */
  function Verdict(ts: seq<Token>): GuardResult {
    if ts == [] then Accepted
    else
      var before := Verdict(ts[..|ts| - 1]);
      if before != Accepted then before else Counted(ts).Judge()
  }

  lemma Snoc(ts: seq<Token>, t: Token)
    ensures Counted(ts + [t]) == Counted(ts).Step(t)
    ensures Verdict(ts + [t]) == if Verdict(ts) != Accepted then Verdict(ts) else Counted(ts).Step(t).Judge()
  {
    var all := ts + [t];
    assert all[..|all| - 1] == ts && all[|all| - 1] == t;
  }

  lemma {:induction false} RejectionStands(ts: seq<Token>, rest: seq<Token>)
    requires Verdict(ts) != Accepted
    ensures Verdict(ts + rest) == Verdict(ts)
  {
    if rest == [] {
      assert ts + rest == ts;
    } else {
      var n := |rest| - 1;
      RejectionStands(ts, rest[..n]);
      assert ts + rest == (ts + rest[..n]) + [rest[n]];
      Snoc(ts + rest[..n], rest[n]);
    }
  }

  // ---------------------------------------------------------------- the scanner

  method ReadWord(sql: string, i: nat) returns (word: string, next: nat)
    requires i < |sql| && Letter(sql[i])
    ensures next == RunEnd(WordChar, sql, i) && word == sql[i..next]
  {
    next := i;
    while next < |sql|
      invariant i <= next <= |sql| && RunEnd(WordChar, sql, i) == RunEnd(WordChar, sql, next)
    {
      if !WordChar(sql[next]) {
        break;
      }
      next := next + 1;
    }
    word := sql[i..next];
  }

  method SkipLineComment(sql: string, i: nat) returns (end: nat)
    requires i < |sql|
    ensures end == LineCommentEnd(sql, i)
  {
    var newline := Find(sql, i, "\n");
    if newline.Some? {
      return newline.value + 1;
    }
    return |sql|;
  }

  /** Block comments nest. */
  method SkipBlockComment(sql: string, i: nat) returns (end: nat)
    requires i < |sql|
    ensures end == CommentEnd(sql, i, 0)
  {
    var depth := 0;
    end := i;
    while end < |sql|
      invariant i <= end <= |sql| && CommentEnd(sql, i, 0) == CommentEnd(sql, end, depth)
    {
      if PairAt(sql, end, '/', '*') {
        depth := depth + 1;
        end := end + 2;
      } else if PairAt(sql, end, '*', '/') {
        depth := depth - 1;
        end := end + 2;
        if depth == 0 {
          return;
        }
      } else {
        end := end + 1;
      }
    }
  }

  method SkipQuoted(sql: string, i: nat, quote: char) returns (end: nat)
    requires i < |sql|
    ensures end == LiteralEnd(sql, i + 1, quote)
  {
    end := i + 1;
    while end < |sql|
      invariant i + 1 <= end <= |sql| && LiteralEnd(sql, i + 1, quote) == LiteralEnd(sql, end, quote)
    {
      if sql[end] != quote {
        end := end + 1;
        continue;
      }
      if end + 1 < |sql| && sql[end + 1] == quote {
        end := end + 2;
        continue;
      }
      return end + 1;
    }
  }

  /** Whether a dollar-quoted body starts here, and where it ends. */
  method SkipDollarQuoted(sql: string, i: nat) returns (end: Option<nat>)
    requires i < |sql| && sql[i] == '$'
    ensures end == DollarEnd(sql, i)
  {
    var close := Find(sql, i + 1, "$");
    if close.None? {
      return None;
    }
    for k := i + 1 to close.value
      invariant RunEnd(Letter, sql, i + 1) == RunEnd(Letter, sql, k)
    {
      if !Letter(sql[k]) {
        return None;
      }
    }
    var tag := sql[i..close.value + 1];
    var found := Find(sql, close.value + 1, tag);
    if found.None? {
      return Some(|sql|);
    }
    return Some(found.value + |tag|);
  }

  /** A run of operator characters is one operator. */
  method SkipOperator(sql: string, i: nat) returns (end: nat)
    requires i < |sql|
    ensures end == RunEnd(OperatorChar, sql, i)
  {
    end := i;
    while end < |sql| && OperatorChar(sql[end])
      invariant i <= end <= |sql| && RunEnd(OperatorChar, sql, i) == RunEnd(OperatorChar, sql, end)
    {
      end := end + 1;
    }
  }

  /** The token at `i`, stepping over whatever it is. */
  method ReadToken(sql: string, i: nat) returns (t: Token, next: nat)
    requires i < |sql|
    ensures Scan(sql, i) == (t, next)
  {
    t := Other;
    if PairAt(sql, i, '-', '-') {
      next := SkipLineComment(sql, i);
    } else if PairAt(sql, i, '/', '*') {
      next := SkipBlockComment(sql, i);
    } else if sql[i] == '\'' {
      next := SkipQuoted(sql, i, '\'');
    } else if sql[i] == '"' {
      next := SkipQuoted(sql, i, '"');
    } else if sql[i] == '$' {
      var end := SkipDollarQuoted(sql, i);
      next := if end.Some? then end.value else i + 1;
    } else if sql[i] == '(' {
      t, next := Open, i + 1;
    } else if sql[i] == ')' {
      t, next := Close, i + 1;
    } else if sql[i] == ';' {
      t, next := Semicolon, i + 1;
    } else if OperatorChar(sql[i]) {
      next := SkipOperator(sql, i);
      t := Operator;
    } else if Letter(sql[i]) {
      var word;
      word, next := ReadWord(sql, i);
      t := if WordOperator(Text.ToUpper(word)) then Operator else Other;
    } else {
      next := i + 1;
    }
  }

  lemma Regroup<T>(seen: seq<T>, t: T, rest: seq<T>)
    ensures seen + ([t] + rest) == (seen + [t]) + rest
  {
  }

  /** One token more, with nothing refused before it. */
  lemma Took(seen: seq<Token>, t: Token, rest: seq<Token>)
    requires Verdict(seen) == Accepted
    ensures seen + ([t] + rest) == (seen + [t]) + rest
    ensures Counted(seen + [t]) == Counted(seen).Step(t)
    ensures Verdict(seen + [t]) == Counted(seen).Step(t).Judge()
    ensures Verdict(seen + [t]) != Accepted ==> Verdict(seen + ([t] + rest)) == Verdict(seen + [t])
  {
    Regroup(seen, t, rest);
    Snoc(seen, t);
    if Verdict(seen + [t]) != Accepted {
      RejectionStands(seen + [t], rest);
    }
  }

  /** One pass over the bytes decides exactly what the tokens decide. */
  method GuardComplexity(sql: string) returns (r: GuardResult)
    ensures r == Verdict(Tokens(sql, 0))
  {
    var depth, maxDepth, operators, statement := 0, 0, 0, 1;
    var i := 0;
    ghost var seen: seq<Token> := [];
    assert seen + Tokens(sql, 0) == Tokens(sql, 0);
    while i < |sql|
      invariant i <= |sql| && Tokens(sql, 0) == seen + Tokens(sql, i)
      invariant Counted(seen) == Counters(depth, operators, statement)
      invariant depth <= maxDepth <= MAX_NESTING_DEPTH && operators <= MAX_OPERATORS
      invariant Verdict(seen) == Accepted
      decreases |sql| - i
    {
      var t, next := ReadToken(sql, i);
      Took(seen, t, Tokens(sql, next));
      seen, i := seen + [t], next;
      match t {
        case Open =>
          depth := depth + 1;
          if depth > maxDepth {
            maxDepth := depth;
          }
          if maxDepth > MAX_NESTING_DEPTH {
            return NestsTooDeep(statement);
          }
        case Close =>
          if depth > 0 {
            depth := depth - 1;
          }
        case Semicolon =>
          statement, operators, depth, maxDepth := statement + 1, 0, 0, 0;
        case Operator =>
          operators := operators + 1;
          if operators > MAX_OPERATORS {
            return ChainsTooMany(statement);
          }
        case Other =>
      }
    }
    assert seen + [] == seen;
    return Accepted;
  }

  // ---------------------------------------------------------------- what acceptance means

  predicate IsSemicolon(t: Token) { t.Semicolon? }
  predicate IsOperator(t: Token) { t.Operator? }
  predicate IsOpen(t: Token) { t.Open? }
  predicate IsClose(t: Token) { t.Close? }

  /** More openings than closings by this much. */
  function Balance(window: seq<Token>): int { Count(IsOpen, window) - Count(IsClose, window) }

  /** Inside one statement. */
  predicate OneStatement(window: seq<Token>) { Count(IsSemicolon, window) == 0 }

  /** Not too many operators and not too deep, if it is inside one statement. */
  predicate Modest(window: seq<Token>) {
    OneStatement(window) ==>
      Balance(window) <= 100 && Count(IsOperator, window) <= 500
  }

  lemma CountSnoc(p: Token -> bool, ts: seq<Token>, t: Token)
    ensures Count(p, ts + [t]) == Count(p, ts) + (if p(t) then 1 else 0)
  {
    FilterConcat(p, ts, [t]);
    assert [t][1..] == [];
  }

  lemma WindowSnoc(window: seq<Token>, t: Token)
    ensures Balance(window + [t]) == Balance(window) + (if t.Open? then 1 else if t.Close? then -1 else 0)
    ensures OneStatement(window + [t]) <==> OneStatement(window) && !t.Semicolon?
    ensures Count(IsOperator, window + [t]) == Count(IsOperator, window) + (if t.Operator? then 1 else 0)
  {
    CountSnoc(IsOpen, window, t);
    CountSnoc(IsClose, window, t);
    CountSnoc(IsSemicolon, window, t);
    CountSnoc(IsOperator, window, t);
  }

  lemma SuffixSnoc(ts: seq<Token>, a: nat)
    requires a < |ts|
    ensures ts[a..] == ts[..|ts| - 1][a..] + [ts[|ts| - 1]]
  {
  }

  /** The counters are at least what any suffix inside the statement holds. */
  lemma {:induction false} CountersDominate(ts: seq<Token>, a: nat)
    requires a <= |ts| && OneStatement(ts[a..])
    ensures Balance(ts[a..]) <= Counted(ts).depth && Count(IsOperator, ts[a..]) <= Counted(ts).operators
  {
    if a < |ts| {
      var n := |ts| - 1;
      SuffixSnoc(ts, a);
      WindowSnoc(ts[..n][a..], ts[n]);
      CountersDominate(ts[..n], a);
    }
  }

  /** And some suffix reaches each: the clamped depth is the largest balance of a suffix. */
  lemma {:induction false} DepthIsReached(ts: seq<Token>) returns (a: nat)
    ensures a <= |ts| && OneStatement(ts[a..]) && Balance(ts[a..]) == Counted(ts).depth
  {
    a := |ts|;
    if ts != [] {
      var n := |ts| - 1;
      var b := DepthIsReached(ts[..n]);
      if !ts[n].Semicolon? && !(ts[n].Close? && Counted(ts[..n]).depth == 0) {
        a := b;
        SuffixSnoc(ts, a);
        WindowSnoc(ts[..n][a..], ts[n]);
      }
    }
  }

  lemma {:induction false} OperatorsAreReached(ts: seq<Token>) returns (a: nat)
    ensures a <= |ts| && OneStatement(ts[a..]) && Count(IsOperator, ts[a..]) == Counted(ts).operators
  {
    a := |ts|;
    if ts != [] {
      var n := |ts| - 1;
      var b := OperatorsAreReached(ts[..n]);
      if !ts[n].Semicolon? {
        a := b;
        SuffixSnoc(ts, a);
        WindowSnoc(ts[..n][a..], ts[n]);
      }
    }
  }

  lemma JudgedBySuffixes(ts: seq<Token>)
    ensures Counted(ts).Judge() == Accepted <==> forall a | 0 <= a <= |ts| :: Modest(ts[a..])
  {
    if Counted(ts).Judge() == Accepted {
      forall a | 0 <= a <= |ts| ensures Modest(ts[a..]) {
        if OneStatement(ts[a..]) {
          CountersDominate(ts, a);
        }
      }
    } else {
      var a := DepthIsReached(ts);
      var b := OperatorsAreReached(ts);
      assert !Modest(ts[a..]) || !Modest(ts[b..]);
    }
  }

  lemma {:induction false} AcceptedByPrefixes(ts: seq<Token>)
    ensures Verdict(ts) == Accepted <==> forall b | 0 <= b <= |ts| :: Counted(ts[..b]).Judge() == Accepted
  {
    if ts == [] {
      assert forall b | 0 <= b <= |ts| :: ts[..b] == [];
    } else {
      var n := |ts| - 1;
      AcceptedByPrefixes(ts[..n]);
      if Verdict(ts) == Accepted {
        forall b | 0 <= b <= |ts| ensures Counted(ts[..b]).Judge() == Accepted {
          assert ts[..b] == if b <= n then ts[..n][..b] else ts;
        }
      } else if Verdict(ts[..n]) != Accepted {
        var b :| 0 <= b <= n && Counted(ts[..n][..b]).Judge() != Accepted;
        assert ts[..b] == ts[..n][..b];
      } else {
        assert ts[..|ts|] == ts;
      }
    }
  }

  /**
   The guard accepts exactly when every stretch of tokens inside one statement has at most 500
   operators and at most 100 more openings than closings.
   */
  lemma AcceptedExactly(ts: seq<Token>)
    ensures Verdict(ts) == Accepted <==> forall a, b | 0 <= a <= b <= |ts| :: Modest(ts[a..b])
  {
    AcceptedByPrefixes(ts);
    forall b | 0 <= b <= |ts|
      ensures Counted(ts[..b]).Judge() == Accepted <==> forall a | 0 <= a <= b :: Modest(ts[a..b])
    {
      JudgedBySuffixes(ts[..b]);
      assert forall a | 0 <= a <= b :: ts[..b][a..] == ts[a..b];
    }
  }

  lemma {:induction false} StatementNumber(ts: seq<Token>)
    ensures Counted(ts).statement == 1 + Count(IsSemicolon, ts)
  {
    if ts != [] {
      var n := |ts| - 1;
      StatementNumber(ts[..n]);
      assert ts == ts[..n] + [ts[n]];
      CountSnoc(IsSemicolon, ts[..n], ts[n]);
    }
  }

  /** A stretch inside one statement, ending at `b`, just over the limit the verdict names. */
  predicate JustOver(ts: seq<Token>, a: nat, b: nat, verdict: GuardResult)
    requires a <= b < |ts|
  {
    && OneStatement(ts[a..b + 1])
    && match verdict
       case Accepted => false
       case NestsTooDeep(n) =>
         Balance(ts[a..b + 1]) == 101 && n == 1 + Count(IsSemicolon, ts[..b + 1])
       case ChainsTooMany(n) =>
         Count(IsOperator, ts[a..b + 1]) == 501 && n == 1 + Count(IsSemicolon, ts[..b + 1])
  }

  lemma AcceptedIsWithin(ts: seq<Token>)
    requires Verdict(ts) == Accepted
    ensures Counted(ts).depth <= MAX_NESTING_DEPTH && Counted(ts).operators <= MAX_OPERATORS
  {
  }

  lemma OneOver(c: Counters, t: Token)
    requires c.depth <= MAX_NESTING_DEPTH && c.operators <= MAX_OPERATORS
    ensures c.Step(t).depth <= MAX_NESTING_DEPTH + 1 && c.Step(t).operators <= MAX_OPERATORS + 1
  {
  }

  lemma RefusedAtLast(ts: seq<Token>) returns (a: nat)
    requires ts != [] && Verdict(ts[..|ts| - 1]) == Accepted && Verdict(ts) != Accepted
    ensures a < |ts| && JustOver(ts, a, |ts| - 1, Verdict(ts))
  {
    AcceptedIsWithin(ts[..|ts| - 1]);
    OneOver(Counted(ts[..|ts| - 1]), ts[|ts| - 1]);
    if Counted(ts).depth > MAX_NESTING_DEPTH {
      a := DepthIsReached(ts);
    } else {
      a := OperatorsAreReached(ts);
    }
    assert ts[a..] == ts[a..|ts|] && ts[..|ts|] == ts;
    StatementNumber(ts);
  }

  /**
   A refusal names the first statement that goes over a limit, and the limit: some prefix ends with
   an immodest stretch inside that statement, and nothing before it was over.
   */
  lemma {:induction false} RefusalNamesFirst(ts: seq<Token>) returns (a: nat, b: nat)
    requires Verdict(ts) != Accepted
    ensures a <= b < |ts| && Verdict(ts[..b]) == Accepted && JustOver(ts, a, b, Verdict(ts))
  {
    var n := |ts| - 1;
    if Verdict(ts[..n]) != Accepted {
      a, b := RefusalNamesFirst(ts[..n]);
      assert ts[..n][..b] == ts[..b] && ts[..n][..b + 1] == ts[..b + 1] && ts[..n][a..b + 1] == ts[a..b + 1];
    } else {
      a := RefusedAtLast(ts);
      b := n;
    }
  }

  // ---------------------------------------------------------------- what is skipped

  /** A literal holding any text at all, its quotes doubled. */
  function Quoted(content: string, quote: char): string {
    if content == "" then [quote]
    else if content[0] == quote then [quote, quote] + Quoted(content[1..], quote)
    else [content[0]] + Quoted(content[1..], quote)
  }

  lemma OccursParts(s: string, i: nat, a: string, b: string)
    requires Occurs(s, i, a + b)
    ensures Occurs(s, i, a) && Occurs(s, i + |a|, b)
  {
    var whole := s[i..i + |a + b|];
    assert s[i..i + |a|] == whole[..|a|] == a && s[i + |a|..i + |a| + |b|] == whole[|a|..] == b;
  }

  lemma {:induction false} LiteralIsWhole(s: string, i: nat, content: string, quote: char)
    requires Occurs(s, i, Quoted(content, quote))
    requires !Occurs(s, i + |Quoted(content, quote)|, [quote])
    ensures LiteralEnd(s, i, quote) == i + |Quoted(content, quote)|
    decreases |content|
  {
    var q := Quoted(content, quote);
    var n := i + |q|;
    assert forall k | 0 <= k < |q| :: s[i + k] == q[k];
    if content == "" {
      assert s[i] == quote;
      if n < |s| {
        assert s[n..n + 1] == [s[n]];
      }
    } else {
      var step := if content[0] == quote then 2 else 1;
      assert q[step..] == Quoted(content[1..], quote);
      assert s[i + step..n] == q[step..];
      LiteralIsWhole(s, i + step, content[1..], quote);
      assert s[i] == q[0] && (step == 2 ==> s[i + 1] == q[1]);
    }
  }

  /** Whatever a quoted literal holds costs nothing: it is one token, ending where it ends. */
  lemma LiteralsAreSkipped(s: string, i: nat, content: string, quote: char)
    requires quote == '\'' || quote == '"'
    requires Occurs(s, i, [quote] + Quoted(content, quote))
    requires !Occurs(s, i + 1 + |Quoted(content, quote)|, [quote])
    ensures Tokens(s, i) == [Other] + Tokens(s, i + 1 + |Quoted(content, quote)|)
  {
    OccursParts(s, i, [quote], Quoted(content, quote));
    OneOccurs(s, i, quote);
    LiteralIsWhole(s, i + 1, content, quote);
  }

  /** The inside of a comment: characters that are neither `*` nor `/`, and comments. */
  datatype Remark = End | Character(c: char, rest: Remark) | Nested(inner: Remark, rest: Remark)

  /** That inside, as written from `i` up to `j`. */
  ghost predicate Written(s: string, i: nat, j: nat, r: Remark)
    decreases r
  {
    match r
    case End => i == j <= |s|
    case Character(c, rest) => c != '*' && c != '/' && i < |s| && s[i] == c && Written(s, i + 1, j, rest)
    case Nested(inner, rest) =>
      PairAt(s, i, '/', '*') &&
      exists k: nat :: Written(s, i + 2, k, inner) && PairAt(s, k, '*', '/') && Written(s, k + 2, j, rest)
  }

  lemma {:induction false} RemarkIsCrossed(s: string, i: nat, j: nat, r: Remark, depth: int)
    requires depth >= 1 && Written(s, i, j, r)
    ensures i <= j <= |s| && CommentEnd(s, i, depth) == CommentEnd(s, j, depth)
    decreases r
  {
    match r {
      case End =>
      case Character(c, rest) => RemarkIsCrossed(s, i + 1, j, rest, depth);
      case Nested(inner, rest) =>
        var k: nat :| Written(s, i + 2, k, inner) && PairAt(s, k, '*', '/') && Written(s, k + 2, j, rest);
        RemarkIsCrossed(s, i + 2, k, inner, depth + 1);
        RemarkIsCrossed(s, k + 2, j, rest, depth);
    }
  }

  /** Comments nest: one token, ending where the outermost does. */
  lemma CommentsAreSkipped(s: string, i: nat, j: nat, r: Remark)
    requires PairAt(s, i, '/', '*') && Written(s, i + 2, j, r) && PairAt(s, j, '*', '/')
    ensures Tokens(s, i) == [Other] + Tokens(s, j + 2)
  {
    RemarkIsCrossed(s, i + 2, j, r, 1);
    assert Scan(s, i) == (Other, j + 2);
  }

  lemma {:induction false} FindIsFirst(s: string, i: nat, pattern: string, m: nat)
    requires i <= m && Occurs(s, m, pattern) && forall k | i <= k < m :: !Occurs(s, k, pattern)
    ensures Find(s, i, pattern) == Some(m)
    decreases m - i
  {
    if i < m {
      FindIsFirst(s, i + 1, pattern, m);
    }
  }

  lemma {:induction false} RunCovers(p: char -> bool, s: string, i: nat, j: nat)
    requires i <= j <= |s| && forall k | i <= k < j :: p(s[k])
    ensures RunEnd(p, s, i) >= j
    decreases j - i
  {
    if i < j {
      RunCovers(p, s, i + 1, j);
    }
  }

  lemma OneOccurs(s: string, k: nat, c: char)
    requires k < |s|
    ensures Occurs(s, k, [c]) <==> s[k] == c
  {
    assert s[k..k + 1] == [s[k]];
  }

  lemma {:induction false} FindsCharacter(s: string, i: nat, c: char, m: nat)
    requires i <= m < |s| && s[m] == c && forall k | i <= k < m :: s[k] != c
    ensures Find(s, i, [c]) == Some(m)
    decreases m - i
  {
    OneOccurs(s, i, c);
    if i < m {
      FindsCharacter(s, i + 1, c, m);
    }
  }

  lemma TagIsRead(s: string, i: nat, end: nat)
    requires i + 2 <= end <= |s| && s[end - 1] == '$' && forall k | i < k < end - 1 :: Letter(s[k])
    ensures TagEnd(s, i) == Some(end)
  {
    FindsCharacter(s, i + 1, '$', end - 1);
    RunCovers(Letter, s, i + 1, end - 1);
  }

  /**
   A dollar-quoted body costs nothing, whatever it holds: one token, from `$tag$` to where the same
   tag first comes again.
   */
  lemma DollarBodiesAreSkipped(s: string, i: nat, end: nat, m: nat)
    requires i + 2 <= end <= |s| && s[i] == '$' && s[end - 1] == '$' && forall k | i < k < end - 1 :: Letter(s[k])
    requires end <= m && Occurs(s, m, s[i..end]) && forall k | end <= k < m :: !Occurs(s, k, s[i..end])
    ensures Tokens(s, i) == [Other] + Tokens(s, m + (end - i))
  {
    TagIsRead(s, i, end);
    FindIsFirst(s, end, s[i..end], m);
    assert Scan(s, i) == (Other, m + (end - i));
  }

  lemma {:induction false} FindsNoCharacter(s: string, i: nat, c: char)
    requires i <= |s| && forall k | i <= k < |s| :: s[k] != c
    ensures Find(s, i, [c]) == None
    decreases |s| - i
  {
    if i < |s| {
      OneOccurs(s, i, c);
      FindsNoCharacter(s, i + 1, c);
    }
  }

  /** A line comment is one inert token that takes its own newline, or the rest of the input. */
  lemma LineCommentsAreSkipped(s: string, i: nat, m: nat)
    requires PairAt(s, i, '-', '-') && i <= m <= |s|
    requires (m < |s| ==> s[m] == '\n') && forall k | i <= k < m :: s[k] != '\n'
    ensures Tokens(s, i) == [Other] + (if m < |s| then Tokens(s, m + 1) else [])
  {
    LineCommentEndsAt(s, i, m);
    assert Scan(s, i) == (Other, if m < |s| then m + 1 else m);
  }

  lemma LineCommentEndsAt(s: string, i: nat, m: nat)
    requires i < |s| && i <= m <= |s|
    requires (m < |s| ==> s[m] == '\n') && forall k | i <= k < m :: s[k] != '\n'
    ensures LineCommentEnd(s, i) == if m < |s| then m + 1 else m
  {
    if m < |s| {
      FindsCharacter(s, i, '\n', m);
    } else {
      FindsNoCharacter(s, i, '\n');
    }
  }

  /** A dollar sign before anything but a tag or another dollar sign hides nothing: `$1` is a parameter. */
  lemma DollarsMayBeAlone(s: string, i: nat)
    requires i < |s| && s[i] == '$' && (i + 1 < |s| ==> s[i + 1] != '$' && !Letter(s[i + 1]))
    ensures Tokens(s, i) == [Other] + Tokens(s, i + 1)
  {
    if i + 1 < |s| {
      OneOccurs(s, i + 1, '$');
    }
  }
}
