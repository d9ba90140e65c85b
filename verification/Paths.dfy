/**
 The one namespace path-keyed decisions are made in.

 A located path is its list of cleaned segments. Cleaning drops empty and "." segments; paths
 that climb with ".." are outside this model.
 */
module Paths {
  import opened Text
  import opened Dominance

  type Located = seq<string>

  predicate Kept(part: string) { part != "" && part != "." }

  function Slashes(p: string): (r: string)
    ensures |r| == |p|
  {
    seq(|p|, i requires 0 <= i < |p| => if p[i] == '\\' then '/' else p[i])
  }

  function Parts(p: string): (r: Located) { Filter(Kept, Split(Slashes(p), '/')) }

  /** A changeset path, put back where its root sits in the repository. */
  function Locate(prefix: string, p: string): Located { Parts(prefix) + Parts(p) }

  function Dir(at: Located): Located { if at == [] then [] else at[..|at| - 1] }

  /** The final dot of a name and what follows it, lower-cased. */
  function SuffixFromDot(name: string): string {
    if name == "" then ""
    else if name[|name| - 1] == '.' then "."
    else
      var rest := SuffixFromDot(name[..|name| - 1]);
      if rest == "" then "" else rest + [Lower(name[|name| - 1])]
  }

  function Ext(at: Located): string { if at == [] then "" else SuffixFromDot(at[|at| - 1]) }

  lemma PartsJoined(a: string, b: string)
    ensures Parts(a + "/" + b) == Parts(a) + Parts(b)
  {
    assert Slashes(a + "/" + b) == Slashes(a) + ['/'] + Slashes(b);
    SplitAcross(Slashes(a), Slashes(b), '/');
    FilterConcat(Kept, Split(Slashes(a), '/'), Split(Slashes(b), '/'));
  }

  /** A backslash separates as a slash does. */
  lemma BackslashSeparates(a: string, b: string)
    ensures Parts(a + "\\" + b) == Parts(a) + Parts(b)
  {
    PartsJoined(a, b);
    assert Slashes(a + "\\" + b) == Slashes(a + "/" + b);
  }

  /** A path named from above its directory; below no directory it is itself, and not an absolute path. */
  function Below(directory: string, p: string): string {
    if directory == "" then p else directory + "/" + p
  }

  lemma PartsBelow(directory: string, p: string)
    ensures Parts(Below(directory, p)) == Parts(directory) + Parts(p)
  {
    if directory == "" {
      assert Slashes("") == "";
    } else {
      PartsJoined(directory, p);
    }
  }

  /**
   Naming the root differently does not move a file: moving a directory from the changeset path
   into the prefix, or back, locates every path to the same place.
   */
  lemma LocateIgnoresRootNaming(prefix: string, directory: string, p: string)
    ensures Locate(Below(prefix, directory), p) == Locate(prefix, Below(directory, p))
  {
    PartsBelow(prefix, directory);
    PartsBelow(directory, p);
  }

  lemma BelowInjective(directory: string, p: string, q: string)
    requires Below(directory, p) == Below(directory, q)
    ensures p == q
  {
    if directory != "" {
      var head := directory + "/";
      assert (head + p)[|head|..] == p && (head + q)[|head|..] == q;
    }
  }

  lemma BelowKeepsOrder(directory: string, p: string, q: string)
    ensures LexLe(Below(directory, p), Below(directory, q)) == LexLe(p, q)
  {
    if directory != "" {
      LexBehind(directory + "/", p, q);
    }
  }

  /** Cleaning is final, and with an empty prefix it is all that locating does. */
  lemma {:induction false} LocateIsClean(prefix: string, p: string)
    ensures forall part | part in Locate(prefix, p) :: Kept(part)
    ensures Locate("", p) == Locate(".", p) == Parts(p)
  {
    forall part | part in Locate(prefix, p) ensures Kept(part) {
      FilterMember(Kept, Split(Slashes(prefix), '/'), part);
      FilterMember(Kept, Split(Slashes(p), '/'), part);
    }
    assert Slashes(".") == "." && Slashes("") == "";
    SplitPlain(".", '/');
  }
}
