/** The filesystem provider: comparing two trees by name, and by content. */
module FsProvider {
  import opened Text
  import opened Dominance
  import opened Changes
  import Sorting

  // ---------------------------------------------------------------- what a comparison is

  function StatusOf(before: set<string>, after: set<string>, p: string): string {
    if p !in before then ADDED else if p !in after then REMOVED else MODIFIED
  }

  function ListedAt(before: set<string>, after: set<string>): string -> Path {
    (p: string) => Path(p, StatusOf(before, after, p))
  }

  function FileAt(before: map<string, string>, after: map<string, string>): string -> ChangedFile {
    (p: string) =>
      ChangedFile(p, "", StatusOf(before.Keys, after.Keys, p),
                  if p in before then before[p] else "", if p in after then after[p] else "")
  }

  /** The paths, each once, in byte order. */
  ghost predicate Inventory(paths: seq<string>, all: set<string>) {
    Sorting.Sorted(LexLe, paths) && multiset(paths) == multiset(all)
  }

  /** One result per path on either side, in byte order of the paths. */
  ghost predicate Compared<T>(out: seq<T>, resultAt: string -> T, all: set<string>) {
    exists paths :: Inventory(paths, all) && out == Map(resultAt, paths)
  }

  /** There is only one: the order a map happens to be iterated in leaves no trace. */
  lemma InventoryIsUnique(xs: seq<string>, ys: seq<string>, all: set<string>)
    requires Inventory(xs, all) && Inventory(ys, all)
    ensures xs == ys
  {
    forall a, b | a in xs && b in xs && LexLe(a, b) && LexLe(b, a) ensures a == b {
      LexAntisymmetric(a, b);
    }
    Sorting.SortedUnique(LexLe, xs, ys);
  }

  // ---------------------------------------------------------------- sorting results is sorting paths

  lemma LexOrder()
    ensures Sorting.TotalPreorder(LexLe)
  {
    forall a: string, b: string ensures LexLe(a, b) || LexLe(b, a) {
      LexTotal(a, b);
    }
    forall a: string, b: string, c: string | LexLe(a, b) && LexLe(b, c) ensures LexLe(a, c) {
      LexTransitive(a, b, c);
    }
  }

  lemma SortedIsCompared<T>(f: string -> T, le: (T, T) -> bool, names: seq<string>, all: set<string>)
    requires forall a, b :: le(f(a), f(b)) == LexLe(a, b)
    requires multiset(names) == multiset(all)
    ensures Compared(Sorting.Sort(le, Map(f, names)), f, all)
  {
    LexOrder();
    Sorting.SortSorted(LexLe, names);
    SortMapped(f, le, LexLe, names);
    assert Inventory(Sorting.Sort(LexLe, names), all);
  }

  // ---------------------------------------------------------------- by name

  /** `out` holds the results for the names seen, each once. */
  ghost predicate Gathered<T>(f: string -> T, names: seq<string>, seen: set<string>, out: seq<T>) {
    multiset(names) == multiset(seen) && out == Map(f, names)
  }

  lemma OneMore<T>(f: string -> T, names: seq<string>, seen: set<string>, out: seq<T>, p: string)
    requires Gathered(f, names, seen, out) && p !in seen
    ensures Gathered(f, names + [p], seen + {p}, out + [f(p)])
  {
    MapConcat(f, names, [p]);
    assert Map(f, [p]) == [f(p)];
  }

  /** Each of the keys not seen before gets its status. */
  method AddAll(before: set<string>, after: set<string>, keys: set<string>,
                seen0: set<string>, out0: seq<Path>, ghost names0: seq<string>)
    returns (seen: set<string>, out: seq<Path>, ghost names: seq<string>)
    requires Gathered(ListedAt(before, after), names0, seen0, out0)
    ensures Gathered(ListedAt(before, after), names, seen, out) && seen == seen0 + keys
  {
    seen, out, names := seen0, out0, names0;
    var todo := keys;
    while todo != {}
      invariant Gathered(ListedAt(before, after), names, seen, out)
      invariant forall p :: p in seen + todo <==> p in seen0 + keys
    {
      var p :| p in todo;
      todo := todo - {p};
      if p !in seen {
        OneMore(ListedAt(before, after), names, seen, out, p);
        var status := MODIFIED;
        if p !in before {
          status := ADDED;
        } else if p !in after {
          status := REMOVED;
        }
        names, seen, out := names + [p], seen + {p}, out + [Path(p, status)];
      }
    }
  }

  /** Which side each name is on; present on both is modified, identical or not. */
  method DiffListings(before: set<string>, after: set<string>) returns (out: seq<Path>)
    ensures Compared(out, ListedAt(before, after), before + after)
  {
    var seen: set<string> := {};
    ghost var names: seq<string> := [];
    out := [];
    seen, out, names := AddAll(before, after, before, seen, out, names);
    seen, out, names := AddAll(before, after, after, seen, out, names);
    assert seen == before + after;
    SortedIsCompared(ListedAt(before, after), PathLe, names, before + after);
    out := Sorting.Sort(PathLe, out);
  }

  // ---------------------------------------------------------------- by content

  /** The keys not seen before, in whatever order they come. */
  method Collect(keys: set<string>, seen: set<string>, paths0: seq<string>) returns (paths: seq<string>)
    ensures multiset(paths) == multiset(paths0) + multiset(keys - seen)
  {
    paths := paths0;
    ghost var done: set<string> := {};
    var todo := keys;
    while todo != {}
      invariant done + todo == keys && done !! todo
      invariant multiset(paths) == multiset(paths0) + multiset(done - seen)
    {
      var p :| p in todo;
      CollectStep(paths, multiset(paths0), done, seen, p);
      done, todo := done + {p}, todo - {p};
      if p !in seen {
        paths := paths + [p];
      }
    }
  }

  lemma CollectStep(paths: seq<string>, start: multiset<string>, done: set<string>, seen: set<string>, p: string)
    requires multiset(paths) == start + multiset(done - seen) && p !in done
    ensures multiset(if p in seen then paths else paths + [p]) == start + multiset((done + {p}) - seen)
  {
    if p in seen {
      assert (done + {p}) - seen == done - seen;
    } else {
      assert (done + {p}) - seen == (done - seen) + {p};
      assert multiset((done - seen) + {p}) == multiset(done - seen) + multiset{p};
    }
  }

  lemma BothSides(before: set<string>, after: set<string>)
    ensures multiset(before - {}) + multiset(after - before) == multiset(before + after)
  {
  }

  method FileFor(before: map<string, string>, after: map<string, string>, p: string) returns (f: ChangedFile)
    requires p in before.Keys + after.Keys
    ensures f == FileAt(before, after)(p)
  {
    var had, has := p in before, p in after;
    if had && has {
      f := ChangedFile(p, "", MODIFIED, before[p], after[p]);
    } else if has {
      f := ChangedFile(p, "", ADDED, "", after[p]);
    } else {
      f := ChangedFile(p, "", REMOVED, before[p], "");
    }
  }

  method FilesFor(before: map<string, string>, after: map<string, string>, paths: seq<string>)
    returns (out: seq<ChangedFile>)
    requires forall p | p in paths :: p in before.Keys + after.Keys
    ensures out == Map(FileAt(before, after), paths)
  {
    ghost var f := FileAt(before, after);
    out := [];
    for i := 0 to |paths|
      invariant out == Map(f, paths[..i])
    {
      assert paths[i] in paths;
      var file := FileFor(before, after, paths[i]);
      assert paths[..i + 1] == paths[..i] + [paths[i]];
      MapConcat(f, paths[..i], [paths[i]]);
      assert Map(f, [paths[i]]) == [file];
      out := out + [file];
    }
    assert paths[..|paths|] == paths;
  }

  lemma Members(paths: seq<string>, all: set<string>)
    requires multiset(paths) == multiset(all)
    ensures forall p | p in paths :: p in all
  {
    forall p | p in paths ensures p in all {
      assert p in multiset(paths);
    }
  }

  method DiffTrees(before: map<string, string>, after: map<string, string>) returns (out: seq<ChangedFile>)
    ensures Compared(out, FileAt(before, after), before.Keys + after.Keys)
  {
    var paths := Collect(before.Keys, {}, []);
    paths := Collect(after.Keys, before.Keys, paths);
    BothSides(before.Keys, after.Keys);
    Members(paths, before.Keys + after.Keys);
    out := FilesFor(before, after, paths);
    SortedIsCompared(FileAt(before, after), FileLe, paths, before.Keys + after.Keys);
    out := Sorting.Sort(FileLe, out);
  }

  /** Whatever order the maps were walked in, comparing the same two trees gives the same answer. */
  lemma ComparisonIsDeterministic<T>(a: seq<T>, b: seq<T>, resultAt: string -> T, all: set<string>)
    requires Compared(a, resultAt, all) && Compared(b, resultAt, all)
    ensures a == b
  {
    var xs :| Inventory(xs, all) && a == Map(resultAt, xs);
    var ys :| Inventory(ys, all) && b == Map(resultAt, ys);
    InventoryIsUnique(xs, ys, all);
  }

  /** The listing is what reading produces, contents left out. */
  lemma ListingMirrorsTrees(
    listing: seq<Path>, files: seq<ChangedFile>, before: map<string, string>, after: map<string, string>)
    requires Compared(listing, ListedAt(before.Keys, after.Keys), before.Keys + after.Keys)
    requires Compared(files, FileAt(before, after), before.Keys + after.Keys)
    ensures listing == Map(Listed, files)
  {
    var all := before.Keys + after.Keys;
    var xs :| Inventory(xs, all) && listing == Map(ListedAt(before.Keys, after.Keys), xs);
    var ys :| Inventory(ys, all) && files == Map(FileAt(before, after), ys);
    InventoryIsUnique(xs, ys, all);
    ContentsLeftOut(before, after, xs);
  }

  lemma {:induction false} ContentsLeftOut(before: map<string, string>, after: map<string, string>, paths: seq<string>)
    ensures Map(ListedAt(before.Keys, after.Keys), paths) == Map(Listed, Map(FileAt(before, after), paths))
  {
    if paths != [] {
      ContentsLeftOut(before, after, paths[1..]);
      assert Map(FileAt(before, after), paths)[1..] == Map(FileAt(before, after), paths[1..]);
    }
  }

  /**
   Every path on either side is listed exactly once: added when only the second tree has it, removed
   when only the first has, modified when both do, identical or not.
   */
  lemma ListingIsComplete(listing: seq<Path>, before: set<string>, after: set<string>, p: Path)
    requires Compared(listing, ListedAt(before, after), before + after)
    ensures multiset(listing)[p] ==
            if p.path !in before && p.path in after && p.status == "ADDED" then 1
            else if p.path in before && p.path !in after && p.status == "REMOVED" then 1
            else if p.path in before && p.path in after && p.status == "MODIFIED" then 1
            else 0
  {
    var paths :| Inventory(paths, before + after) && listing == Map(ListedAt(before, after), paths);
    CountOfMapped(ListedAt(before, after), (q: Path) => q.path, paths, p);
    assert ListedAt(before, after)(p.path) == p <==> p.status == StatusOf(before, after, p.path);
    StatusesDiffer();
  }

  lemma StatusesDiffer()
    ensures "ADDED" != "REMOVED" && "ADDED" != "MODIFIED" && "REMOVED" != "MODIFIED"
  {
    assert "ADDED"[0] == 'A' && "REMOVED"[0] == 'R' && "MODIFIED"[0] == 'M';
  }

  /** The same of the files read, each with the content it has on each side it is on. */
  lemma ComparisonIsComplete(
    files: seq<ChangedFile>, before: map<string, string>, after: map<string, string>, f: ChangedFile)
    requires Compared(files, FileAt(before, after), before.Keys + after.Keys)
    ensures multiset(files)[f] ==
            if f.previousPath != "" then 0
            else if f.path !in before && f.path in after
                 && f.status == "ADDED" && f.previous == "" && f.current == after[f.path] then 1
            else if f.path in before && f.path !in after
                 && f.status == "REMOVED" && f.previous == before[f.path] && f.current == "" then 1
            else if f.path in before && f.path in after
                 && f.status == "MODIFIED" && f.previous == before[f.path] && f.current == after[f.path] then 1
            else 0
  {
    var paths :| Inventory(paths, before.Keys + after.Keys) && files == Map(FileAt(before, after), paths);
    CountOfMapped(FileAt(before, after), (g: ChangedFile) => g.path, paths, f);
    StatusesDiffer();
  }

  /** How often a result occurs, when it says which path it is for. */
  lemma {:induction false} CountOfMapped<T>(resultAt: string -> T, pathOf: T -> string, paths: seq<string>, r: T)
    requires forall p :: pathOf(resultAt(p)) == p
    ensures multiset(Map(resultAt, paths))[r] == if resultAt(pathOf(r)) == r then multiset(paths)[pathOf(r)] else 0
  {
    if paths != [] {
      CountOfMapped(resultAt, pathOf, paths[1..], r);
      assert paths == [paths[0]] + paths[1..];
      assert Map(resultAt, paths) == [resultAt(paths[0])] + Map(resultAt, paths[1..]);
    }
  }
}
