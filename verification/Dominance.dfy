/**
 Comparing two runs. One finding list dominates another when every element of the smaller list
 can be paired off with its own, related element of the larger one. Appending findings, making
 findings worse in place and reordering them are all instances; whatever depends only on which
 findings exist and how many of a kind there are is monotone under it.
 */
module Dominance {
  import Sorting

  function Filter<T>(p: T -> bool, xs: seq<T>): (r: seq<T>)
    ensures |r| <= |xs|
  {
    if xs == [] then [] else (if p(xs[0]) then [xs[0]] else []) + Filter(p, xs[1..])
  }

  function Map<T, U>(f: T -> U, xs: seq<T>): (r: seq<U>)
    ensures |r| == |xs|
    ensures forall i | 0 <= i < |xs| :: r[i] == f(xs[i])
  {
    if xs == [] then [] else [f(xs[0])] + Map(f, xs[1..])
  }

  function Count<T>(p: T -> bool, xs: seq<T>): (n: nat)
    ensures n <= |xs|
  {
    |Filter(p, xs)|
  }

  lemma {:induction false} FilterMember<T>(p: T -> bool, xs: seq<T>, x: T)
    ensures x in Filter(p, xs) <==> x in xs && p(x)
  {
    if xs != [] {
      FilterMember(p, xs[1..], x);
      assert xs == [xs[0]] + xs[1..];
    }
  }

  /** What a loop that keeps and converts ends up with. */
  lemma CollectedMember<T, U>(p: T -> bool, g: T -> U, xs: seq<T>, y: U)
    ensures y in Map(g, Filter(p, xs)) <==> exists x | x in xs :: p(x) && g(x) == y
  {
    var kept := Filter(p, xs);
    if y in Map(g, kept) {
      var k :| 0 <= k < |kept| && Map(g, kept)[k] == y;
      FilterMember(p, xs, kept[k]);
    }
    if x :| x in xs && p(x) && g(x) == y {
      FilterMember(p, xs, x);
      var k :| 0 <= k < |kept| && kept[k] == x;
      assert Map(g, kept)[k] == y;
    }
  }

  lemma FilterEmpty<T>(p: T -> bool, xs: seq<T>)
    ensures Filter(p, xs) == [] <==> forall x | x in xs :: !p(x)
  {
    forall x | x in xs ensures Filter(p, xs) == [] ==> !p(x) {
      FilterMember(p, xs, x);
    }
    if Filter(p, xs) != [] {
      FilterMember(p, xs, Filter(p, xs)[0]);
    }
  }

  lemma {:induction false} FilterConcat<T>(p: T -> bool, xs: seq<T>, ys: seq<T>)
    ensures Filter(p, xs + ys) == Filter(p, xs) + Filter(p, ys)
  {
    if xs == [] {
      assert xs + ys == ys;
    } else {
      var head := if p(xs[0]) then [xs[0]] else [];
      calc {
        Filter(p, xs + ys);
        { assert (xs + ys)[1..] == xs[1..] + ys; }
        head + Filter(p, xs[1..] + ys);
        { FilterConcat(p, xs[1..], ys); }
        head + (Filter(p, xs[1..]) + Filter(p, ys));
        (head + Filter(p, xs[1..])) + Filter(p, ys);
      }
    }
  }

  /** One more element of a loop that appends when `p` holds. */
  lemma FilterStep<T>(p: T -> bool, xs: seq<T>, i: nat)
    requires i < |xs|
    ensures Filter(p, xs[..i + 1]) == Filter(p, xs[..i]) + (if p(xs[i]) then [xs[i]] else [])
  {
    assert xs[..i + 1] == xs[..i] + [xs[i]];
    FilterConcat(p, xs[..i], [xs[i]]);
  }

  /** The same for a loop that also converts what it keeps. */
  lemma CollectStep<T, U>(p: T -> bool, g: T -> U, xs: seq<T>, i: nat)
    requires i < |xs|
    ensures Map(g, Filter(p, xs[..i + 1])) ==
            Map(g, Filter(p, xs[..i])) + (if p(xs[i]) then [g(xs[i])] else [])
  {
    FilterStep(p, xs, i);
    MapConcat(g, Filter(p, xs[..i]), [xs[i]]);
    assert Map(g, [xs[i]]) == [g(xs[i])];
    assert Filter(p, xs[..i]) + [] == Filter(p, xs[..i]);
  }

  lemma {:induction false} FilterAll<T>(p: T -> bool, xs: seq<T>)
    requires forall x | x in xs :: p(x)
    ensures Filter(p, xs) == xs
  {
    if xs != [] {
      FilterAll(p, xs[1..]);
      assert xs == [xs[0]] + xs[1..];
    }
  }

  lemma {:induction false} MapConcat<T, U>(f: T -> U, xs: seq<T>, ys: seq<T>)
    ensures Map(f, xs + ys) == Map(f, xs) + Map(f, ys)
  {
  }

  function Without<T>(xs: seq<T>, j: nat): seq<T>
    requires j < |xs|
  {
    xs[..j] + xs[j + 1..]
  }

  lemma WithoutMultiset<T>(xs: seq<T>, j: nat)
    requires j < |xs|
    ensures multiset(xs) == multiset(Without(xs, j)) + multiset{xs[j]}
  {
    assert xs == xs[..j] + [xs[j]] + xs[j + 1..];
  }

  /** Every element of `xs` is paired with its own element of `ys`, related to it by `r`. */
  ghost predicate Dominated<T>(r: (T, T) -> bool, xs: seq<T>, ys: seq<T>) {
    xs == [] ||
    exists j | 0 <= j < |ys| :: r(xs[0], ys[j]) && Dominated(r, xs[1..], Without(ys, j))
  }

  lemma {:induction false} DominatedPointwise<T>(r: (T, T) -> bool, xs: seq<T>, ys: seq<T>)
    requires |xs| == |ys|
    requires forall i | 0 <= i < |xs| :: r(xs[i], ys[i])
    ensures Dominated(r, xs, ys)
  {
    if xs != [] {
      DominatedPointwise(r, xs[1..], ys[1..]);
      assert Without(ys, 0) == ys[1..];
    }
  }

  lemma DominatedByImage<T>(r: (T, T) -> bool, f: T -> T, xs: seq<T>)
    requires forall x | x in xs :: r(x, f(x))
    ensures Dominated(r, xs, Map(f, xs))
  {
    DominatedPointwise(r, xs, Map(f, xs));
  }

  /** A list dominates every list it contains, in whatever order. */
  lemma {:induction false} DominatedMultiset<T>(r: (T, T) -> bool, xs: seq<T>, ys: seq<T>)
    requires multiset(xs) <= multiset(ys)
    requires forall x | x in xs :: r(x, x)
    ensures Dominated(r, xs, ys)
  {
    if xs != [] {
      assert xs == [xs[0]] + xs[1..];
      assert xs[0] in multiset(ys);
      var j :| 0 <= j < |ys| && ys[j] == xs[0];
      WithoutMultiset(ys, j);
      assert multiset(xs[1..]) == multiset(xs) - multiset{xs[0]};
      DominatedMultiset(r, xs[1..], Without(ys, j));
    }
  }

  lemma {:induction false} DominatedExists<T>(r: (T, T) -> bool, xs: seq<T>, ys: seq<T>, x: T)
    requires Dominated(r, xs, ys) && x in xs
    ensures exists y :: y in ys && r(x, y)
  {
    var j :| 0 <= j < |ys| && r(xs[0], ys[j]) && Dominated(r, xs[1..], Without(ys, j));
    if x != xs[0] {
      DominatedExists(r, xs[1..], Without(ys, j), x);
    }
  }

  lemma FilterAround<T>(q: T -> bool, ys: seq<T>, j: nat)
    requires j < |ys|
    ensures Filter(q, Without(ys, j)) == Filter(q, ys[..j]) + Filter(q, ys[j + 1..])
    ensures Filter(q, ys) ==
            Filter(q, ys[..j]) + ((if q(ys[j]) then [ys[j]] else []) + Filter(q, ys[j + 1..]))
  {
    FilterConcat(q, ys[..j], ys[j + 1..]);
    FilterConcat(q, ys[..j], ys[j..]);
    assert ys == ys[..j] + ys[j..];
    assert ys[j..][1..] == ys[j + 1..];
  }

  lemma {:induction false} DominatedCount<T(!new)>(
    r: (T, T) -> bool, p: T -> bool, q: T -> bool, xs: seq<T>, ys: seq<T>)
    requires Dominated(r, xs, ys)
    requires forall x, y | y in ys && r(x, y) && p(x) :: q(y)
    ensures Count(p, xs) <= Count(q, ys)
  {
    if xs != [] {
      var j :| 0 <= j < |ys| && r(xs[0], ys[j]) && Dominated(r, xs[1..], Without(ys, j));
      DominatedCount(r, p, q, xs[1..], Without(ys, j));
      FilterAround(q, ys, j);
    }
  }

  lemma WithoutJoined<T>(a: seq<T>, b: seq<T>)
    requires b != []
    ensures Without(a + b, |a|) == a + b[1..]
  {
  }

  lemma MapWithout<T, U>(g: T -> U, ys: seq<T>, j: nat)
    requires j < |ys|
    ensures Map(g, Without(ys, j)) == Without(Map(g, ys), j)
  {
    var a, b := ys[..j], ys[j..];
    assert ys == a + b && b[1..] == ys[j + 1..];
    MapConcat(g, a, b);
    MapConcat(g, a, b[1..]);
    WithoutJoined(Map(g, a), Map(g, b));
    assert Map(g, b)[1..] == Map(g, b[1..]);
  }

  lemma {:induction false} DominatedMap<T(!new)>(
    r: (T, T) -> bool, s: (T, T) -> bool, f: T -> T, g: T -> T, xs: seq<T>, ys: seq<T>)
    requires Dominated(r, xs, ys)
    requires forall x, y | x in xs && y in ys && r(x, y) :: s(f(x), g(y))
    ensures Dominated(s, Map(f, xs), Map(g, ys))
  {
    if xs != [] {
      var j :| 0 <= j < |ys| && r(xs[0], ys[j]) && Dominated(r, xs[1..], Without(ys, j));
      DominatedMap(r, s, f, g, xs[1..], Without(ys, j));
      MapWithout(g, ys, j);
      assert Map(f, xs)[1..] == Map(f, xs[1..]);
      assert s(Map(f, xs)[0], Map(g, ys)[j]);
    }
  }

  /** Keeping fewer of the dominated list than of the dominating one preserves domination. */
  lemma {:induction false} DominatedFilter<T(!new)>(
    r: (T, T) -> bool, p: T -> bool, q: T -> bool, xs: seq<T>, ys: seq<T>)
    requires Dominated(r, xs, ys)
    requires forall x, y | x in xs && y in ys && r(x, y) && p(x) :: q(y)
    ensures Dominated(r, Filter(p, xs), Filter(q, ys))
  {
    if xs != [] {
      var j :| 0 <= j < |ys| && r(xs[0], ys[j]) && Dominated(r, xs[1..], Without(ys, j));
      DominatedFilter(r, p, q, xs[1..], Without(ys, j));
      FilterAround(q, ys, j);
      DominatedFilterStep(r, xs[0], p(xs[0]), Filter(p, xs[1..]),
                          Filter(q, ys[..j]), ys[j], q(ys[j]), Filter(q, ys[j + 1..]));
    }
  }

  lemma DominatedFilterStep<T>(
    r: (T, T) -> bool, x: T, keepX: bool, xs: seq<T>, a: seq<T>, y: T, keepY: bool, c: seq<T>)
    requires r(x, y) && (keepX ==> keepY) && Dominated(r, xs, a + c)
    ensures Dominated(r, (if keepX then [x] else []) + xs, a + ((if keepY then [y] else []) + c))
  {
    if keepX {
      DominatedCons(r, x, xs, a, y, c);
    } else {
      assert [] + xs == xs;
      DominatedGrow(r, xs, a, if keepY then [y] else [], c);
    }
  }

  lemma DominatedCons<T>(r: (T, T) -> bool, x: T, xs: seq<T>, a: seq<T>, y: T, c: seq<T>)
    requires r(x, y) && Dominated(r, xs, a + c)
    ensures Dominated(r, [x] + xs, a + ([y] + c))
  {
    var ys := a + ([y] + c);
    assert ys[|a|] == y && Without(ys, |a|) == a + c;
    assert ([x] + xs)[1..] == xs;
  }

  lemma WithoutMiddle<T>(a: seq<T>, b: seq<T>, c: seq<T>, j: nat)
    requires j < |a + c|
    ensures j < |a| ==> Without(a + c, j) == Without(a, j) + c
    ensures j < |a| ==> Without(a + (b + c), j) == Without(a, j) + (b + c)
    ensures j >= |a| ==> Without(a + c, j) == a + Without(c, j - |a|)
    ensures j >= |a| ==> Without(a + (b + c), j + |b|) == a + (b + Without(c, j - |a|))
  {
  }

  lemma {:induction false} DominatedGrow<T>(r: (T, T) -> bool, xs: seq<T>, a: seq<T>, b: seq<T>, c: seq<T>)
    requires Dominated(r, xs, a + c)
    ensures Dominated(r, xs, a + (b + c))
  {
    if xs != [] {
      var j :| 0 <= j < |a + c| && r(xs[0], (a + c)[j]) && Dominated(r, xs[1..], Without(a + c, j));
      var k := if j < |a| then j else j + |b|;
      assert (a + (b + c))[k] == (a + c)[j];
      WithoutMiddle(a, b, c, j);
      if j < |a| {
        DominatedGrow(r, xs[1..], Without(a, j), b, c);
      } else {
        DominatedGrow(r, xs[1..], a, b, Without(c, j - |a|));
      }
      assert Dominated(r, xs[1..], Without(a + (b + c), k));
    }
  }

  lemma {:induction false} DominatedWeaken<T(!new)>(r: (T, T) -> bool, s: (T, T) -> bool, xs: seq<T>, ys: seq<T>)
    requires Dominated(r, xs, ys)
    requires forall x, y | x in xs && y in ys && r(x, y) :: s(x, y)
    ensures Dominated(s, xs, ys)
  {
    if xs != [] {
      var j :| 0 <= j < |ys| && r(xs[0], ys[j]) && Dominated(r, xs[1..], Without(ys, j));
      DominatedWeaken(r, s, xs[1..], Without(ys, j));
    }
  }

  // ---------------------------------------------------------------- permutations

  /** The first element of one permutation has its place in the other, and the rest permute. */
  lemma HeadIn<T>(xs: seq<T>, ys: seq<T>) returns (j: nat)
    requires xs != [] && multiset(xs) == multiset(ys)
    ensures j < |ys| && ys[j] == xs[0] && multiset(xs[1..]) == multiset(Without(ys, j))
  {
    assert xs == [xs[0]] + xs[1..];
    assert xs[0] in multiset(ys);
    j :| 0 <= j < |ys| && ys[j] == xs[0];
    WithoutMultiset(ys, j);
    assert multiset(xs[1..]) == multiset(xs) - multiset{xs[0]};
  }

  lemma FilterWithout<T>(p: T -> bool, ys: seq<T>, j: nat)
    requires j < |ys|
    ensures multiset(Filter(p, ys)) == multiset(Filter(p, Without(ys, j))) + multiset(if p(ys[j]) then [ys[j]] else [])
  {
    FilterAround(p, ys, j);
  }

  lemma {:induction false} FilterPermutes<T>(p: T -> bool, xs: seq<T>, ys: seq<T>)
    requires multiset(xs) == multiset(ys)
    ensures multiset(Filter(p, xs)) == multiset(Filter(p, ys))
  {
    assert |multiset(xs)| == |xs| && |multiset(ys)| == |ys|;
    if xs != [] {
      var j := HeadIn(xs, ys);
      FilterPermutes(p, xs[1..], Without(ys, j));
      FilterWithout(p, ys, j);
    }
  }

  lemma MapHeadMultiset<T, U>(f: T -> U, xs: seq<T>)
    requires xs != []
    ensures multiset(Map(f, xs)) == multiset{f(xs[0])} + multiset(Map(f, xs[1..]))
  {
    assert Map(f, xs) == [f(xs[0])] + Map(f, xs[1..]);
  }

  lemma {:induction false} MapPermutes<T, U>(f: T -> U, xs: seq<T>, ys: seq<T>)
    requires multiset(xs) == multiset(ys)
    ensures multiset(Map(f, xs)) == multiset(Map(f, ys))
  {
    assert |multiset(xs)| == |xs| && |multiset(ys)| == |ys|;
    if xs != [] {
      var j := HeadIn(xs, ys);
      MapPermutes(f, xs[1..], Without(ys, j));
      MapHeadMultiset(f, xs);
      MapWithout(f, ys, j);
      WithoutMultiset(Map(f, ys), j);
    }
  }

  // ---------------------------------------------------------------- maps that keep an order or a test

  lemma MapHead<T, U>(f: T -> U, x: T, xs: seq<T>)
    ensures Map(f, [x] + xs) == [f(x)] + Map(f, xs)
  {
    assert ([x] + xs)[1..] == xs;
  }

  lemma {:induction false} InsertMapped<T(!new), U>(
    f: T -> U, le: (U, U) -> bool, under: (T, T) -> bool, x: T, xs: seq<T>)
    requires forall a, b :: le(f(a), f(b)) == under(a, b)
    ensures Sorting.Insert(le, f(x), Map(f, xs)) == Map(f, Sorting.Insert(under, x, xs))
  {
    if xs == [] || under(x, xs[0]) {
      MapHead(f, x, xs);
      assert xs == [] ==> [x] + xs == [x];
    } else {
      InsertMapped(f, le, under, x, xs[1..]);
      MapHead(f, xs[0], Sorting.Insert(under, x, xs[1..]));
      assert Map(f, xs)[1..] == Map(f, xs[1..]);
    }
  }

  lemma {:induction false} SortMapped<T(!new), U>(f: T -> U, le: (U, U) -> bool, under: (T, T) -> bool, xs: seq<T>)
    requires forall a, b :: le(f(a), f(b)) == under(a, b)
    ensures Sorting.Sort(le, Map(f, xs)) == Map(f, Sorting.Sort(under, xs))
  {
    if xs != [] {
      SortMapped(f, le, under, xs[1..]);
      InsertMapped(f, le, under, xs[0], Sorting.Sort(under, xs[1..]));
      assert Map(f, xs)[1..] == Map(f, xs[1..]);
    }
  }

  lemma {:induction false} FilterMapped<T(!new), U>(f: T -> U, p: T -> bool, q: U -> bool, xs: seq<T>)
    requires forall x | x in xs :: q(f(x)) == p(x)
    ensures Filter(q, Map(f, xs)) == Map(f, Filter(p, xs))
  {
    if xs != [] {
      FilterMapped(f, p, q, xs[1..]);
      assert Map(f, xs)[1..] == Map(f, xs[1..]);
      assert xs[0] in xs;
      if p(xs[0]) {
        MapHead(f, xs[0], Filter(p, xs[1..]));
      }
    }
  }
}
