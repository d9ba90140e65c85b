/** What a provider hands over: a listing of changed paths, and the files themselves. */
module Changes {
  import opened Text
  import Sorting

  const ADDED := "ADDED"
  const MODIFIED := "MODIFIED"
  const REMOVED := "REMOVED"

  datatype Path = Path(path: string, status: string)

  /** Both sides of one change; a side that does not exist is empty. */
  datatype ChangedFile = ChangedFile(
    path: string, previousPath: string, status: string, previous: string, current: string)

  function Listed(f: ChangedFile): Path { Path(f.path, f.status) }

  predicate PathLe(a: Path, b: Path) { LexLe(a.path, b.path) }

  predicate FileLe(a: ChangedFile, b: ChangedFile) { LexLe(a.path, b.path) }

  lemma PathOrder()
    ensures Sorting.TotalPreorder(PathLe)
  {
    forall a: Path, b: Path ensures PathLe(a, b) || PathLe(b, a) {
      LexTotal(a.path, b.path);
    }
    forall a: Path, b: Path, c: Path | PathLe(a, b) && PathLe(b, c) ensures PathLe(a, c) {
      LexTransitive(a.path, b.path, c.path);
    }
  }

  lemma FileOrder()
    ensures Sorting.TotalPreorder(FileLe)
  {
    forall a: ChangedFile, b: ChangedFile ensures FileLe(a, b) || FileLe(b, a) {
      LexTotal(a.path, b.path);
    }
    forall a: ChangedFile, b: ChangedFile, c: ChangedFile | FileLe(a, b) && FileLe(b, c) ensures FileLe(a, c) {
      LexTransitive(a.path, b.path, c.path);
    }
  }
}
