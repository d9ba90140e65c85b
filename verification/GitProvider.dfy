/** The git provider: decoding `git diff --name-status -z`, listing what changed, and reading it. */
module GitProvider {
  import opened Domain
  import opened Text
  import opened Dominance
  import opened Changes

  const NUL := '\0'

  datatype GitChange = GitChange(status: char, src: string, dst: string)

  datatype DiffError = TruncatedDiff(field: string) | UnrecognisedStatus(field: string)

  // ---------------------------------------------------------------- decoding

  predicate TwoPaths(status: char) { status == 'R' || status == 'C' }
  predicate OnePath(status: char) { status == 'A' || status == 'M' || status == 'D' || status == 'T' }

  /** The entry at a non-empty field, and where the next one starts. */
  function EntryAt(fields: seq<string>, i: nat): (r: Result<(GitChange, nat), DiffError>)
    requires i < |fields| && fields[i] != ""
    ensures r.Ok? ==> i < r.value.1 <= |fields|
  {
    var field := fields[i];
    if TwoPaths(field[0]) then
      if i + 2 >= |fields| || fields[i + 1] == "" || fields[i + 2] == "" then Err(TruncatedDiff(field))
      else Ok((GitChange(field[0], fields[i + 1], fields[i + 2]), i + 3))
    else if OnePath(field[0]) then
      if i + 1 >= |fields| || fields[i + 1] == "" then Err(TruncatedDiff(field))
      else Ok((GitChange(field[0], fields[i + 1], fields[i + 1]), i + 2))
    else Err(UnrecognisedStatus(field))
  }

  function ParseFrom(fields: seq<string>, i: nat): Result<seq<GitChange>, DiffError>
    requires i <= |fields|
    decreases |fields| - i
  {
    if i == |fields| then Ok([])
    else if fields[i] == "" then ParseFrom(fields, i + 1)
    else match EntryAt(fields, i)
      case Err(e) => Err(e)
      case Ok((change, next)) => After([change], ParseFrom(fields, next))
  }

  function After<T, E>(before: seq<T>, r: Result<seq<T>, E>): Result<seq<T>, E> {
    match r case Err(e) => Err(e) case Ok(rest) => Ok(before + rest)
  }

  lemma AfterAfter<T, E>(a: seq<T>, b: seq<T>, r: Result<seq<T>, E>)
    ensures After(a, After(b, r)) == After(a + b, r)
    ensures After([], r) == r
  {
    if r.Ok? {
      assert a + (b + r.value) == (a + b) + r.value && [] + r.value == r.value;
    }
  }

  method ParseNameStatus(out: string) returns (r: Result<seq<GitChange>, DiffError>)
    ensures r == ParseFrom(Split(out, NUL), 0)
  {
    var fields := Split(out, NUL);
    var changes: seq<GitChange> := [];
    var i := 0;
    AfterAfter([], [], ParseFrom(fields, 0));
    while i < |fields|
      invariant i <= |fields| && After(changes, ParseFrom(fields, i)) == ParseFrom(fields, 0)
    {
      var field := fields[i];
      if field == "" {
        i := i + 1;
        continue;
      }
      var status := field[0];
      if TwoPaths(status) {
        if i + 2 >= |fields| {
          return Err(TruncatedDiff(field));
        }
        var src, dst := fields[i + 1], fields[i + 2];
        if src == "" || dst == "" {
          return Err(TruncatedDiff(field));
        }
        AfterAfter(changes, [GitChange(status, src, dst)], ParseFrom(fields, i + 3));
        changes := changes + [GitChange(status, src, dst)];
        i := i + 3;
      } else if OnePath(status) {
        if i + 1 >= |fields| {
          return Err(TruncatedDiff(field));
        }
        var p := fields[i + 1];
        if p == "" {
          return Err(TruncatedDiff(field));
        }
        AfterAfter(changes, [GitChange(status, p, p)], ParseFrom(fields, i + 2));
        changes := changes + [GitChange(status, p, p)];
        i := i + 2;
      } else {
        return Err(UnrecognisedStatus(field));
      }
    }
    assert changes + [] == changes;
    return Ok(changes);
  }

  // ---------------------------------------------------------------- the encoding it undoes

  /** A change as git writes it; `score` is what follows the status letter, as in R100. */
  datatype Entry = Entry(change: GitChange, score: string)
  {
    /** One of the statuses git documents as reliable, with paths that are there and hold no NUL. */
    predicate Valid() {
      && change.status in {'A', 'M', 'D', 'T', 'R', 'C'}
      && (change.status == 'R' || change.status == 'C' || change.dst == change.src)
      && change.src != "" && change.dst != ""
      && NUL !in change.src && NUL !in change.dst && NUL !in score
    }

    function Fields(): seq<string> {
      if change.status == 'R' || change.status == 'C' then [[change.status] + score, change.src, change.dst]
      else [[change.status] + score, change.src]
    }
  }

  function ChangeOf(e: Entry): GitChange { e.change }

  function FieldsOf(entries: seq<Entry>): seq<string> {
    if entries == [] then [] else entries[0].Fields() + FieldsOf(entries[1..])
  }

  /** Every field followed by a NUL. */
  function Terminated(fields: seq<string>): string {
    if fields == [] then "" else fields[0] + [NUL] + Terminated(fields[1..])
  }

  lemma {:induction false} TerminatedSplits(fields: seq<string>)
    requires forall f | f in fields :: NUL !in f
    ensures Split(Terminated(fields), NUL) == fields + [""]
  {
    if fields != [] {
      var rest := Terminated(fields[1..]);
      TerminatedSplits(fields[1..]);
      SplitAcross(fields[0], rest, NUL);
      SplitPlain(fields[0], NUL);
      assert fields == [fields[0]] + fields[1..];
    }
  }

  lemma EntryReads(before: seq<string>, e: Entry, after: seq<string>)
    requires e.Valid()
    ensures var fields := before + (e.Fields() + after);
      EntryAt(fields, |before|) == Ok((e.change, |before| + |e.Fields()|))
  {
    var own := e.Fields();
    var fields := before + (own + after);
    assert forall k | 0 <= k < |own| :: fields[|before| + k] == own[k];
  }

  lemma {:induction false} EntriesParse(entries: seq<Entry>, before: seq<string>)
    requires forall e | e in entries :: e.Valid()
    ensures ParseFrom(before + FieldsOf(entries) + [""], |before|) == Ok(Map(ChangeOf, entries))
    decreases |entries|
  {
    var fields := before + FieldsOf(entries) + [""];
    if entries == [] {
      assert ParseFrom(fields, |before| + 1) == Ok([]);
    } else {
      var e, after := entries[0], FieldsOf(entries[1..]) + [""];
      assert e in entries;
      EntryReads(before, e, after);
      assert fields == before + (e.Fields() + after);
      assert fields == (before + e.Fields()) + FieldsOf(entries[1..]) + [""];
      EntriesParse(entries[1..], before + e.Fields());
    }
  }

  lemma {:induction false} FieldsHoldNoNul(entries: seq<Entry>)
    requires forall e | e in entries :: e.Valid()
    ensures forall f | f in FieldsOf(entries) :: NUL !in f
  {
    if entries != [] {
      FieldsHoldNoNul(entries[1..]);
      assert entries[0] in entries;
      assert forall f | f in entries[0].Fields() :: NUL !in f;
    }
  }

  /** Decoding what git encodes gives back the changes, whatever else the paths contain. */
  lemma ParseUndoesEncoding(entries: seq<Entry>)
    requires forall e | e in entries :: e.Valid()
    ensures ParseFrom(Split(Terminated(FieldsOf(entries)), NUL), 0) == Ok(Map(ChangeOf, entries))
  {
    FieldsHoldNoNul(entries);
    TerminatedSplits(FieldsOf(entries));
    EntriesParse(entries, []);
    assert [] + FieldsOf(entries) + [""] == FieldsOf(entries) + [""];
  }

  predicate NonEmpty(field: string) { field != "" }

  lemma DropHead(fields: seq<string>, i: nat, n: nat)
    requires i + n <= |fields| && "" !in fields[i..i + n]
    ensures Filter(NonEmpty, fields[i..]) == fields[i..i + n] + Filter(NonEmpty, fields[i + n..])
    decreases n
  {
    if n == 0 {
      assert fields[i..i] == [];
    } else {
      assert fields[i..i + n] == [fields[i]] + fields[i + 1..i + n];
      DropHead(fields, i + 1, n - 1);
      assert fields[i..][1..] == fields[i + 1..];
    }
  }

  /** What a parsed change always is. */
  predicate WellFormed(c: GitChange) {
    && c.status in {'A', 'M', 'D', 'T', 'R', 'C'}
    && (c.status == 'R' || c.status == 'C' || c.dst == c.src)
    && c.src != "" && c.dst != ""
  }

  lemma EntryFields(fields: seq<string>, i: nat)
    requires i < |fields| && fields[i] != "" && EntryAt(fields, i).Ok?
    ensures var change, next := EntryAt(fields, i).value.0, EntryAt(fields, i).value.1;
      && WellFormed(change)
      && Entry(change, fields[i][1..]).Fields() == fields[i..next] && "" !in fields[i..next]
  {
    assert [fields[i][0]] + fields[i][1..] == fields[i];
  }

  lemma EntriesCons(e: Entry, rest: seq<Entry>)
    ensures FieldsOf([e] + rest) == e.Fields() + FieldsOf(rest)
    ensures Map(ChangeOf, [e] + rest) == [e.change] + Map(ChangeOf, rest)
  {
    assert ([e] + rest)[1..] == rest;
  }

  lemma EntryConsumed(fields: seq<string>, i: nat, rest: seq<Entry>)
    requires i < |fields| && fields[i] != "" && EntryAt(fields, i).Ok?
    requires Filter(NonEmpty, fields[EntryAt(fields, i).value.1..]) == FieldsOf(rest)
    ensures var change := EntryAt(fields, i).value.0;
            var entries := [Entry(change, fields[i][1..])] + rest;
      && WellFormed(change)
      && Map(ChangeOf, entries) == [change] + Map(ChangeOf, rest)
      && Filter(NonEmpty, fields[i..]) == FieldsOf(entries)
  {
    EntryFields(fields, i);
    DropHead(fields, i, EntryAt(fields, i).value.1 - i);
    EntriesCons(Entry(EntryAt(fields, i).value.0, fields[i][1..]), rest);
  }

  /** A successful parse accounts for every non-empty field: nothing git reported is dropped. */
  lemma {:induction false} NothingIsDropped(fields: seq<string>, i: nat) returns (entries: seq<Entry>)
    requires i <= |fields| && ParseFrom(fields, i).Ok?
    ensures Map(ChangeOf, entries) == ParseFrom(fields, i).value
    ensures Filter(NonEmpty, fields[i..]) == FieldsOf(entries)
    ensures forall c | c in ParseFrom(fields, i).value :: WellFormed(c)
    decreases |fields| - i
  {
    if i == |fields| {
      entries := [];
    } else if fields[i] == "" {
      entries := NothingIsDropped(fields, i + 1);
      assert fields[i..][1..] == fields[i + 1..];
    } else {
      entries := NothingIsDropped(fields, EntryAt(fields, i).value.1);
      EntryConsumed(fields, i, entries);
      entries := [Entry(EntryAt(fields, i).value.0, fields[i][1..])] + entries;
    }
  }

  // ---------------------------------------------------------------- listing and reading

  /** A rename is a removal and an addition; a copy only an addition. */
  function PathsOf(c: GitChange): seq<Path> {
    if c.status == 'A' || c.status == 'C' then [Path(c.dst, ADDED)]
    else if c.status == 'D' then [Path(c.src, REMOVED)]
    else if c.status == 'M' || c.status == 'T' then [Path(c.dst, MODIFIED)]
    else if c.status == 'R' then [Path(c.src, REMOVED), Path(c.dst, ADDED)]
    else []
  }

  function Listing(changes: seq<GitChange>): seq<Path> {
    if changes == [] then [] else PathsOf(changes[0]) + Listing(changes[1..])
  }

  lemma {:induction false} ListingSnoc(changes: seq<GitChange>, c: GitChange)
    ensures Listing(changes + [c]) == Listing(changes) + PathsOf(c)
  {
    if changes == [] {
      assert changes + [c] == [c] && [c][1..] == [];
    } else {
      ListingSnoc(changes[1..], c);
      assert (changes + [c])[1..] == changes[1..] + [c];
    }
  }

  method ChangedPaths(changes: seq<GitChange>) returns (out: seq<Path>)
    ensures out == Listing(changes)
  {
    out := [];
    for i := 0 to |changes|
      invariant out == Listing(changes[..i])
    {
      var c := changes[i];
      ListingSnoc(changes[..i], c);
      assert changes[..i + 1] == changes[..i] + [c];
      match c.status {
        case 'A' => out := out + [Path(c.dst, ADDED)];
        case 'D' => out := out + [Path(c.src, REMOVED)];
        case 'M' => out := out + [Path(c.dst, MODIFIED)];
        case 'T' => out := out + [Path(c.dst, MODIFIED)];
        case 'R' => out := out + [Path(c.src, REMOVED), Path(c.dst, ADDED)];
        case 'C' => out := out + [Path(c.dst, ADDED)];
        case _ =>
      }
    }
    assert changes[..|changes|] == changes;
  }

  /** One side of the comparison: a file's content there, or why it could not be read. */
  type Blobs = string -> Result<string, string>

  /** What reading one listed path comes to. */
  function ReadOne(previous: Blobs, current: Blobs, p: Path): Result<ChangedFile, string> {
    if p.status == ADDED then
      match current(p.path) case Err(e) => Err(e) case Ok(b) => Ok(ChangedFile(p.path, "", ADDED, "", b))
    else if p.status == REMOVED then
      match previous(p.path) case Err(e) => Err(e) case Ok(a) => Ok(ChangedFile(p.path, "", REMOVED, a, ""))
    else
      match previous(p.path)
      case Err(e) => Err(e)
      case Ok(a) =>
        match current(p.path) case Err(e) => Err(e) case Ok(b) => Ok(ChangedFile(p.path, "", MODIFIED, a, b))
  }

  function Reading(previous: Blobs, current: Blobs): Path -> Result<ChangedFile, string> {
    (p: Path) => ReadOne(previous, current, p)
  }

  /** Reading a listing in order, up to the first failure. */
  function ReadAll<T>(read: Path -> Result<T, string>, paths: seq<Path>): Result<seq<T>, string> {
    if paths == [] then Ok([])
    else match read(paths[0])
      case Err(e) => Err(e)
      case Ok(f) => After([f], ReadAll(read, paths[1..]))
  }

  function Wanted(wanted: set<string>): Path -> bool { (p: Path) => p.path in wanted }

  method AppendAdded(current: Blobs, wanted: set<string>, p: string, out: seq<ChangedFile>)
    returns (r: Result<seq<ChangedFile>, string>)
    ensures r == if p !in wanted then Ok(out)
                 else match current(p) case Err(e) => Err(e) case Ok(b) => Ok(out + [ChangedFile(p, "", ADDED, "", b)])
  {
    if p !in wanted {
      return Ok(out);
    }
    match current(p) {
      case Err(e) => return Err(e);
      case Ok(content) => return Ok(out + [ChangedFile(p, "", ADDED, "", content)]);
    }
  }

  method AppendRemoved(previous: Blobs, wanted: set<string>, p: string, out: seq<ChangedFile>)
    returns (r: Result<seq<ChangedFile>, string>)
    ensures r == if p !in wanted then Ok(out)
                 else match previous(p) case Err(e) => Err(e) case Ok(a) => Ok(out + [ChangedFile(p, "", REMOVED, a, "")])
  {
    if p !in wanted {
      return Ok(out);
    }
    match previous(p) {
      case Err(e) => return Err(e);
      case Ok(content) => return Ok(out + [ChangedFile(p, "", REMOVED, content, "")]);
    }
  }

  lemma {:induction false} ReadAllConcat<T>(read: Path -> Result<T, string>, a: seq<Path>, b: seq<Path>)
    ensures ReadAll(read, a + b) ==
            match ReadAll(read, a) case Err(e) => Err(e) case Ok(x) => After(x, ReadAll(read, b))
  {
    if a == [] {
      assert a + b == b;
      AfterAfter([], [], ReadAll(read, b));
    } else {
      ReadAllConcat(read, a[1..], b);
      assert (a + b)[1..] == a[1..] + b;
      if read(a[0]).Ok? && ReadAll(read, a[1..]).Ok? {
        AfterAfter([read(a[0]).value], ReadAll(read, a[1..]).value, ReadAll(read, b));
      }
    }
  }

  /** Reading the kept paths of a listing onto what was read before it. */
  function ReadOnto<T>(read: Path -> Result<T, string>, keep: Path -> bool, out: seq<T>, paths: seq<Path>)
    : Result<seq<T>, string>
  {
    After(out, ReadAll(read, Filter(keep, paths)))
  }

  lemma ReadOntoConcat<T>(read: Path -> Result<T, string>, keep: Path -> bool, out: seq<T>, a: seq<Path>, b: seq<Path>)
    ensures ReadOnto(read, keep, out, a + b) ==
            match ReadOnto(read, keep, out, a) case Err(e) => Err(e) case Ok(x) => ReadOnto(read, keep, x, b)
  {
    FilterConcat(keep, a, b);
    ReadAllConcat(read, Filter(keep, a), Filter(keep, b));
    if ReadAll(read, Filter(keep, a)).Ok? {
      AfterAfter(out, ReadAll(read, Filter(keep, a)).value, ReadAll(read, Filter(keep, b)));
    }
  }

  lemma ReadOntoOne<T>(read: Path -> Result<T, string>, keep: Path -> bool, out: seq<T>, p: Path)
    ensures ReadOnto(read, keep, out, [p]) ==
            if !keep(p) then Ok(out) else match read(p) case Err(e) => Err(e) case Ok(f) => Ok(out + [f])
    ensures ReadOnto(read, keep, out, []) == Ok(out)
  {
    assert [p][1..] == [] && out + [] == out;
    if keep(p) {
      assert Filter(keep, [p]) == [p];
      assert ReadAll(read, [p][1..]) == Ok([]);
      if read(p).Ok? {
        assert [read(p).value] + [] == [read(p).value];
      }
    } else {
      assert Filter(keep, [p]) == [];
    }
  }

  /** A modification is of one path, as every parsed one is. */
  predicate InPlace(c: GitChange) { WellFormed(c) || (c.status != 'M' && c.status != 'T') }

  /** One entry's files, read onto what was read before it. */
  method ReadEntry(c: GitChange, previous: Blobs, current: Blobs, wanted: set<string>, out: seq<ChangedFile>)
    returns (r: Result<seq<ChangedFile>, string>)
    requires InPlace(c)
    ensures r == ReadOnto(Reading(previous, current), Wanted(wanted), out, PathsOf(c))
  {
    ghost var read, keep := Reading(previous, current), Wanted(wanted);
    ReadOntoOne(read, keep, out, Path(c.dst, ADDED));
    ReadOntoOne(read, keep, out, Path(c.src, REMOVED));
    ReadOntoOne(read, keep, out, Path(c.dst, MODIFIED));
    match c.status {
      case 'A' => r := AppendAdded(current, wanted, c.dst, out);
      case 'D' => r := AppendRemoved(previous, wanted, c.src, out);
      case 'R' =>
        assert PathsOf(c) == [Path(c.src, REMOVED)] + [Path(c.dst, ADDED)];
        ReadOntoConcat(read, keep, out, [Path(c.src, REMOVED)], [Path(c.dst, ADDED)]);
        r := AppendRemoved(previous, wanted, c.src, out);
        if r.Err? {
          return;
        }
        ReadOntoOne(read, keep, r.value, Path(c.dst, ADDED));
        r := AppendAdded(current, wanted, c.dst, r.value);
      case 'C' => r := AppendAdded(current, wanted, c.dst, out);
      case _ =>
        if (c.status != 'M' && c.status != 'T') || c.dst !in wanted {
          return Ok(out);
        }
        var before := previous(c.src);
        if before.Err? {
          return Err(before.error);
        }
        var after := current(c.dst);
        if after.Err? {
          return Err(after.error);
        }
        r := Ok(out + [ChangedFile(c.dst, "", MODIFIED, before.value, after.value)]);
    }
  }

  /** Reading is the listing's wanted paths, read in the listing's order: the two halves agree. */
  method ReadChanges(changes: seq<GitChange>, previous: Blobs, current: Blobs, wanted: set<string>)
    returns (r: Result<seq<ChangedFile>, string>)
    requires forall c | c in changes :: InPlace(c)
    ensures r == ReadAll(Reading(previous, current), Filter(Wanted(wanted), Listing(changes)))
  {
    ghost var read, keep := Reading(previous, current), Wanted(wanted);
    var out: seq<ChangedFile> := [];
    AfterAfter([], [], ReadAll(read, Filter(keep, Listing(changes))));
    assert changes[0..] == changes;
    for i := 0 to |changes|
      invariant ReadOnto(read, keep, out, Listing(changes[i..])) == ReadAll(read, Filter(keep, Listing(changes)))
    {
      assert changes[i..][1..] == changes[i + 1..];
      ReadOntoConcat(read, keep, out, PathsOf(changes[i]), Listing(changes[i + 1..]));
      var next := ReadEntry(changes[i], previous, current, wanted, out);
      if next.Err? {
        return next;
      }
      out := next.value;
    }
    ReadOntoOne(read, keep, out, Path("", ADDED));
    return Ok(out);
  }

  lemma {:induction false} ReadingKeepsListing(previous: Blobs, current: Blobs, paths: seq<Path>)
    requires forall p | p in paths :: p.status == ADDED || p.status == REMOVED || p.status == MODIFIED
    ensures var r := ReadAll(Reading(previous, current), paths);
      && (r.Ok? ==> Map(Listed, r.value) == paths)
      && (r.Ok? <==> forall p | p in paths :: ReadOne(previous, current, p).Ok?)
  {
    if paths != [] {
      ReadingKeepsListing(previous, current, paths[1..]);
      assert paths == [paths[0]] + paths[1..];
      var r := ReadAll(Reading(previous, current), paths[1..]);
      var one := ReadOne(previous, current, paths[0]);
      assert paths[0] in paths;
      if one.Ok? && r.Ok? {
        assert ([one.value] + r.value)[1..] == r.value;
      }
    }
  }

  /**
   What is read is what was listed: every wanted entry of the listing, in order, with its status;
   and reading fails only when the content of one of them does.
   */
  lemma ListingAndReadingAgree(changes: seq<GitChange>, previous: Blobs, current: Blobs, wanted: set<string>)
    ensures var listed := Filter(Wanted(wanted), Listing(changes));
            var r := ReadAll(Reading(previous, current), listed);
      && (r.Ok? ==> Map(Listed, r.value) == listed)
      && (r.Ok? <==> forall p | p in listed :: ReadOne(previous, current, p).Ok?)
  {
    var listed := Filter(Wanted(wanted), Listing(changes));
    forall p | p in listed ensures p.status == ADDED || p.status == REMOVED || p.status == MODIFIED {
      FilterMember(Wanted(wanted), Listing(changes), p);
      ListedStatuses(changes, p);
    }
    ReadingKeepsListing(previous, current, listed);
  }

  lemma {:induction false} ListedStatuses(changes: seq<GitChange>, p: Path)
    requires p in Listing(changes)
    ensures p.status == ADDED || p.status == REMOVED || p.status == MODIFIED
  {
    if p !in PathsOf(changes[0]) {
      ListedStatuses(changes[1..], p);
    }
  }

  /**
   What the listing holds: a destination that was added, copied or renamed to, a source that was
   deleted or renamed from, and whatever was modified or changed type in place.
   */
  lemma {:induction false} ListingMeans(changes: seq<GitChange>, p: Path)
    ensures p in Listing(changes) <==> exists c | c in changes ::
      || (p.status == "ADDED" && p.path == c.dst && (c.status == 'A' || c.status == 'C' || c.status == 'R'))
      || (p.status == "REMOVED" && p.path == c.src && (c.status == 'D' || c.status == 'R'))
      || (p.status == "MODIFIED" && p.path == c.dst && (c.status == 'M' || c.status == 'T'))
  {
    if changes != [] {
      ListingMeans(changes[1..], p);
      assert changes == [changes[0]] + changes[1..];
      EntryListed(changes[0], p);
      assert changes[0] in changes;
    }
  }

  lemma EntryListed(c: GitChange, p: Path)
    ensures p in PathsOf(c) <==>
      || (p.status == "ADDED" && p.path == c.dst && (c.status == 'A' || c.status == 'C' || c.status == 'R'))
      || (p.status == "REMOVED" && p.path == c.src && (c.status == 'D' || c.status == 'R'))
      || (p.status == "MODIFIED" && p.path == c.dst && (c.status == 'M' || c.status == 'T'))
  {
    assert p == Path(p.path, p.status);
  }

  /** And how much: one entry a change, and one more for each rename. */
  lemma {:induction false} ListingCounts(changes: seq<GitChange>)
    requires forall c | c in changes :: WellFormed(c)
    ensures |Listing(changes)| == |changes| + Count((c: GitChange) => c.status == 'R', changes)
  {
    if changes != [] {
      assert changes[0] in changes && changes == [changes[0]] + changes[1..];
      ListingCounts(changes[1..]);
    }
  }

  /** Which content is on which side of a file read: the old one before, the new one after. */
  lemma ReadSides(changes: seq<GitChange>, previous: Blobs, current: Blobs, wanted: set<string>, f: ChangedFile)
    requires ReadAll(Reading(previous, current), Filter(Wanted(wanted), Listing(changes))).Ok?
    requires f in ReadAll(Reading(previous, current), Filter(Wanted(wanted), Listing(changes))).value
    ensures f.path in wanted && f.previousPath == ""
    ensures f.status == "ADDED" || f.status == "REMOVED" || f.status == "MODIFIED"
    ensures if f.status == "ADDED" then f.previous == "" else previous(f.path) == Ok(f.previous)
    ensures if f.status == "REMOVED" then f.current == "" else current(f.path) == Ok(f.current)
  {
    var listed := Filter(Wanted(wanted), Listing(changes));
    var p := ReadFrom(Reading(previous, current), listed, f);
    FilterMember(Wanted(wanted), Listing(changes), p);
    ListedStatuses(changes, p);
  }

  /** And everything wanted that was listed is read. */
  lemma WantedIsRead(changes: seq<GitChange>, previous: Blobs, current: Blobs, wanted: set<string>, p: Path)
    requires ReadAll(Reading(previous, current), Filter(Wanted(wanted), Listing(changes))).Ok?
    requires p in Listing(changes) && p.path in wanted
    ensures exists f | f in ReadAll(Reading(previous, current), Filter(Wanted(wanted), Listing(changes))).value ::
              f.path == p.path && f.status == p.status
  {
    var listed := Filter(Wanted(wanted), Listing(changes));
    var files := ReadAll(Reading(previous, current), listed).value;
    FilterMember(Wanted(wanted), Listing(changes), p);
    ListingAndReadingAgree(changes, previous, current, wanted);
    var k :| 0 <= k < |listed| && listed[k] == p;
    assert Map(Listed, files)[k] == p && files[k] in files;
  }

  lemma {:induction false} ReadFrom<T>(read: Path -> Result<T, string>, paths: seq<Path>, f: T) returns (p: Path)
    requires ReadAll(read, paths).Ok? && f in ReadAll(read, paths).value
    ensures p in paths && read(p) == Ok(f)
  {
    if read(paths[0]) == Ok(f) {
      p := paths[0];
    } else {
      assert f in ReadAll(read, paths[1..]).value;
      p := ReadFrom(read, paths[1..], f);
    }
  }

  // ---------------------------------------------------------------- sizes

  const MAX_FILE_BYTES: nat := 2 * 1024 * 1024

  predicate IsDigit(c: char) { '0' <= c <= '9' }

  predicate Numeric(s: string) { forall k | 0 <= k < |s| :: IsDigit(s[k]) }

  function Digit(c: char): nat { if IsDigit(c) then c as int - '0' as int else 0 }

  function Decimal(s: string): nat {
    if s == "" then 0 else 10 * Decimal(s[..|s| - 1]) + Digit(s[|s| - 1])
  }

  lemma {:induction false} DecimalGrows(s: string, k: nat)
    requires k <= |s|
    ensures Decimal(s[..k]) <= Decimal(s)
    decreases |s|
  {
    if k < |s| {
      DecimalGrows(s[..|s| - 1], k);
      assert s[..|s| - 1][..k] == s[..k];
    } else {
      assert s[..k] == s;
    }
  }

  /**
   The size git printed, exactly, when it is a number within the limit; anything else is refused or
   comes back over the limit, and reading stops before it can overflow.
   */
  method ParseSize(s: string) returns (r: Result<nat, string>)
    ensures r.Ok? && r.value <= 2097152 <==> s != "" && Numeric(s) && Decimal(s) <= 2097152
    ensures r.Ok? && r.value <= 2097152 ==> r.value == Decimal(s)
    ensures r.Ok? ==> r.value < 20971530
  {
    var size: nat := 0;
    if s == "" {
      return Err("empty size");
    }
    for i := 0 to |s|
      invariant Numeric(s[..i]) && size == Decimal(s[..i]) && size <= MAX_FILE_BYTES
    {
      if s[i] < '0' || s[i] > '9' {
        return Err("non-numeric size");
      }
      assert s[..i + 1] == s[..i] + [s[i]] && s[..i + 1][..i] == s[..i];
      size := size * 10 + Digit(s[i]);
      if size > MAX_FILE_BYTES {
        DecimalGrows(s, i + 1);
        return Ok(size);
      }
    }
    assert s[..|s|] == s;
    return Ok(size);
  }
}
