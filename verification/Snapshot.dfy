/**
 Production context: what a snapshot of the database and the cluster adds to a finding. It may
 make a finding worse and must never make one better.
 */
module Snapshot {
  import opened Text
  import opened Domain
  import opened Dominance
  import opened ScoreProperties

  datatype Table = Table(schema: string, name: string, rowEstimate: int, sizeBytes: int, totalSizeBytes: int)
  datatype Index = Index(schema: string, table: string, name: string, sizeBytes: int, scans: int)
  datatype Column = Column(schema: string, table: string, name: string, nullFraction: real, averageWidth: int)
  datatype StorageClass = StorageClass(name: string, reclaimPolicy: string)
  datatype Claim = Claim(namespace: string, name: string, phase: string, storageClass: string, capacity: string)

  datatype PostgresData = PostgresData(tables: seq<Table>, indexes: seq<Index>, columns: seq<Column>)
  datatype KubernetesData = KubernetesData(storageClasses: seq<StorageClass>, claims: seq<Claim>)
  datatype SnapshotSet = SnapshotSet(postgres: Option<PostgresData>, kubernetes: Option<KubernetesData>)

  // ---------------------------------------------------------------- names

  /** The text before and after the last separator; nothing before when there is none. */
  function SplitLast(s: string, sep: char): (r: (string, string))
    ensures sep !in s ==> r == ("", s)
    ensures sep in s ==> r.0 + [sep] + r.1 == s && sep !in r.1
  {
    if s == [] then ("", "")
    else
      var n := |s| - 1;
      assert s == s[..n] + [s[n]];
      if s[n] == sep then (s[..n], "")
      else
        var r := SplitLast(s[..n], sep);
        (r.0, r.1 + [s[n]])
  }

  function SplitQualified(s: string): (string, string) { SplitLast(Trim(s), '.') }

  /** An unqualified reference matches on the name alone. */
  predicate SameObject(ref: (string, string), schema: string, name: string) {
    EqualFold(ref.1, name) && (ref.0 == "" || EqualFold(ref.0, schema))
  }

  // ---------------------------------------------------------------- lookups

  datatype Lookup<T> = Lookup(last: Option<T>, unique: bool)

  function Find<T>(p: T -> bool, xs: seq<T>): Lookup<T> {
    var matches := Filter(p, xs);
    Lookup(if matches == [] then None else Some(matches[|matches| - 1]), |matches| == 1)
  }

  /** The loop every lookup runs: remember the last match and count them. */
  method CountMatches<T>(p: T -> bool, xs: seq<T>) returns (r: Lookup<T>)
    ensures r == Find(p, xs)
    ensures r.unique <==> exists i: nat :: OnlyMatch(p, xs, i)
  {
    var found: Option<T>, matches := None, 0;
    for i := 0 to |xs|
      invariant matches == |Filter(p, xs[..i])|
      invariant found == Find(p, xs[..i]).last
    {
      FilterStep(p, xs, i);
      if p(xs[i]) {
        found, matches := Some(xs[i]), matches + 1;
      }
    }
    assert xs[..|xs|] == xs;
    r := Lookup(found, matches == 1);
    SingleMatch(p, xs);
  }

  /** The entry at `i` matches and no other does. */
  predicate OnlyMatch<T>(p: T -> bool, xs: seq<T>, i: nat) {
    i < |xs| && p(xs[i]) && forall j | 0 <= j < |xs| :: p(xs[j]) ==> j == i
  }

  lemma OnlyMatchTail<T>(p: T -> bool, xs: seq<T>, i: nat)
    requires xs != []
    ensures OnlyMatch(p, xs, i + 1) <==> !p(xs[0]) && OnlyMatch(p, xs[1..], i)
    ensures OnlyMatch(p, xs, 0) <==> p(xs[0]) && Filter(p, xs[1..]) == []
  {
    var rest := xs[1..];
    assert forall j | 0 <= j < |rest| :: rest[j] == xs[j + 1];
    assert forall j | 1 <= j < |xs| :: xs[j] == rest[j - 1] && xs[j] in rest;
    FilterEmpty(p, rest);
  }

  lemma {:induction false} SingleMatch<T>(p: T -> bool, xs: seq<T>)
    ensures |Filter(p, xs)| == 1 <==> exists i: nat :: OnlyMatch(p, xs, i)
  {
    if xs != [] {
      SingleMatch(p, xs[1..]);
      OnlyMatchTail(p, xs, 0);
      if !p(xs[0]) {
        if i: nat :| OnlyMatch(p, xs[1..], i) {
          OnlyMatchTail(p, xs, i);
        }
      }
      if i: nat :| OnlyMatch(p, xs, i) && i > 0 {
        OnlyMatchTail(p, xs, i - 1);
      }
    }
  }

  function Missing<T>(): Lookup<T> { Lookup(None, false) }

  function TableFor(s: SnapshotSet, relation: string): Lookup<Table> {
    if s.postgres.None? || relation == "" then Missing()
    else
      var ref := SplitQualified(relation);
      Find((t: Table) => SameObject(ref, t.schema, t.name), s.postgres.value.tables)
  }

  function NamesColumn(relation: string, column: string): Column -> bool {
    var ref := SplitQualified(relation);
    (c: Column) => SameObject(ref, c.schema, c.table) && EqualFold(c.name, column)
  }

  function ColumnFor(s: SnapshotSet, relation: string, column: string): Lookup<Column> {
    if s.postgres.None? || relation == "" || column == "" then Missing()
    else Find(NamesColumn(relation, column), s.postgres.value.columns)
  }

  function IndexFor(s: SnapshotSet, name: string, relation: string): Lookup<Index> {
    if s.postgres.None? || name == "" then Missing()
    else
      var ref, table := SplitQualified(name), SplitQualified(relation).1;
      Find((i: Index) => SameObject(ref, i.schema, i.name) && (table == "" || EqualFold(table, i.table)),
           s.postgres.value.indexes)
  }

  function ClaimFor(s: SnapshotSet, name: string): Lookup<Claim> {
    if s.kubernetes.None? || name == "" then Missing()
    else
      var ref := SplitLast(name, '/');
      Find((c: Claim) => EqualFold(c.name, ref.1) && (ref.0 == "" || EqualFold(c.namespace, ref.0)),
           s.kubernetes.value.claims)
  }

  /** The first class of that name decides, and only if it says anything. */
  function ReclaimPolicy(s: SnapshotSet, className: string): Option<string> {
    if s.kubernetes.None? || className == "" then None
    else
      var matches := Filter((sc: StorageClass) => sc.name == className, s.kubernetes.value.storageClasses);
      if matches == [] || matches[0].reclaimPolicy == "" then None else Some(matches[0].reclaimPolicy)
  }

  // ---------------------------------------------------------------- sizes and bands

  const REWRITE_RATE := 50 * 1048576
  const SCAN_RATE := 200 * 1048576

  function RateFor(lock: LockHazard): Option<nat> {
    match lock
    case LockTableRewrite => Some(REWRITE_RATE)
    case LockFullScan => Some(SCAN_RATE)
    case _ => None
  }

  /** Under one second, under thirty, under five minutes, or longer, at the rate for the lock. */
  function BandFor(size: int, lock: LockHazard): Band {
    if !lock.AtLeast(LockFullScan) || size <= 0 || RateFor(lock).None? then NO_BAND
    else
      var rate := RateFor(lock).value;
      if size < rate then Negligible
      else if size < 30 * rate then Noticeable
      else if size < 300 * rate then Disruptive
      else Outage
  }

  const NANOSECONDS := 1000000000.0

  /** How long the lock is held at that rate, in whole nanoseconds. */
  function Duration(size: int, rate: nat): int
    requires rate > 0
  {
    (size as real / rate as real * NANOSECONDS).Floor
  }

  lemma DurationUnder(size: int, rate: nat, seconds: nat)
    requires rate > 0
    ensures Duration(size, rate) < seconds * 1000000000 <==> size < seconds * rate
  {
    var x := size as real / rate as real;
    assert x * rate as real == size as real;
    var d := x * NANOSECONDS;
    assert d.Floor < seconds * 1000000000 <==> d < seconds as real * NANOSECONDS;
    assert d < seconds as real * NANOSECONDS <==> x < seconds as real;
    ScaledLess(x, seconds as real, rate as real);
  }

  lemma ScaledLess(x: real, y: real, scale: real)
    requires scale > 0.0
    ensures x < y <==> x * scale < y * scale
  {
    if x < y {
      assert (y - x) * scale > 0.0;
    } else {
      assert (x - y) * scale >= 0.0;
    }
  }

  /**
   The thresholds on size are the published ones on estimated duration, at 50 MiB a second for a
   rewrite and 200 for a scan.
   */
  lemma BandIsDuration(size: int, lock: LockHazard)
    requires size > 0 && (lock.LockTableRewrite? || lock.LockFullScan?)
    ensures var d := Duration(size, if lock.LockTableRewrite? then 52428800 else 209715200);
      && (BandFor(size, lock) == Negligible <==> d < 1 * 1000000000)
      && (BandFor(size, lock) == Noticeable <==> 1 * 1000000000 <= d < 30 * 1000000000)
      && (BandFor(size, lock) == Disruptive <==> 30 * 1000000000 <= d < 300 * 1000000000)
      && (BandFor(size, lock) == Outage <==> 300 * 1000000000 <= d)
  {
    var rate := RateFor(lock).value;
    DurationUnder(size, rate, 1);
    DurationUnder(size, rate, 30);
    DurationUnder(size, rate, 300);
  }

  predicate InTable(c: Column, schema: string, name: string) {
    EqualFold(c.schema, schema) && EqualFold(c.table, name)
  }

  function Width(columns: seq<Column>, schema: string, name: string): int {
    if columns == [] then 0
    else
      var n := |columns| - 1;
      Width(columns[..n], schema, name) + (if InTable(columns[n], schema, name) then columns[n].averageWidth else 0)
  }

  method RowWidth(s: SnapshotSet, schema: string, name: string) returns (width: int)
    ensures width == if s.postgres.None? then 0 else Width(s.postgres.value.columns, schema, name)
  {
    if s.postgres.None? {
      return 0;
    }
    var columns := s.postgres.value.columns;
    width := 0;
    for i := 0 to |columns|
      invariant width == Width(columns[..i], schema, name)
    {
      assert columns[..i + 1][..i] == columns[..i];
      if InTable(columns[i], schema, name) {
        width := width + columns[i].averageWidth;
      }
    }
    assert columns[..|columns|] == columns;
  }

  /** The recorded size, or rows times summed column widths, or nothing. */
  function TableSize(s: SnapshotSet, t: Table): Option<int> {
    if t.sizeBytes > 0 then Some(t.sizeBytes)
    else if t.rowEstimate <= 0 || s.postgres.None? then None
    else
      var width := Width(s.postgres.value.columns, t.schema, t.name);
      if width <= 0 then None else Some(t.rowEstimate * width)
  }

  // ---------------------------------------------------------------- the contexts

  function ScanContext(s: SnapshotSet, f: Finding, note: Note): Option<FindingContext> {
    var t := TableFor(s, f.subject.relation);
    if !t.unique then None
    else match TableSize(s, t.last.value)
      case None => None
      case Some(size) => Some(FindingContext(t.last.value.rowEstimate, size, BandFor(size, f.lock), note))
  }

  function DropIndexContext(s: SnapshotSet, f: Finding): Option<FindingContext> {
    var i := IndexFor(s, f.subject.target, f.subject.relation);
    if !i.unique then None
    else Some(FindingContext(0, i.last.value.sizeBytes, NO_BAND, if i.last.value.scans == 0 then IndexUnused else IndexUsed))
  }

  function ClaimRemovalContext(s: SnapshotSet, f: Finding): Option<FindingContext> {
    var c := ClaimFor(s, f.subject.relation);
    if !c.unique then None
    else
      var policy := ReclaimPolicy(s, c.last.value.storageClass);
      Some(FindingContext(0, 0, NO_BAND,
        if policy == Some("Retain") then ClaimRetained else if policy.Some? then ClaimDestroyed else ClaimUnknown))
  }

  function StorageDecreaseContext(s: SnapshotSet, f: Finding): Option<FindingContext> {
    var c := ClaimFor(s, f.subject.relation);
    if !c.unique then None
    else Some(FindingContext(0, 0, NO_BAND, if c.last.value.capacity == "" then CapacityUnbound else CapacityBound))
  }

  predicate HasNulls(s: SnapshotSet, f: Finding) {
    var c := ColumnFor(s, f.subject.relation, f.subject.target);
    c.unique && c.last.value.nullFraction > 0.0
  }

  // ---------------------------------------------------------------- enrichment

  /** SET NOT NULL against production: the one rule that overwrites the finding itself. */
  method SetNotNull(s: SnapshotSet, out: array<Finding>, i: nat)
    requires i < out.Length
    modifies out
    ensures forall k | 0 <= k < out.Length && k != i :: out[k] == old(out[k])
    ensures out[i] == NotNullChecked(s, old(out[i]))
  {
    var f := out[i];
    var t := TableFor(s, f.subject.relation);
    var col := ColumnFor(s, f.subject.relation, f.subject.target);
    if col.unique && col.last.value.nullFraction > 0.0 {
      var rows := if t.last.Some? then t.last.value.rowEstimate else 0;
      out[i] := f.(reversibility := WillFail, context := Some(FindingContext(rows, 0, NO_BAND, NullsFound)));
      return;
    }
    if !t.unique {
      return;
    }
    var size := TableSize(s, t.last.value);
    if size.None? {
      return;
    }
    var note := if col.unique then NoNulls else NoStatistics;
    out[i] := f.(context := Some(FindingContext(t.last.value.rowEstimate, size.value, BandFor(size.value, f.lock), note)));
  }

  function NotNullChecked(s: SnapshotSet, f: Finding): Finding {
    if HasNulls(s, f) then
      var last := TableFor(s, f.subject.relation).last;
      f.(reversibility := WillFail,
         context := Some(FindingContext(if last.Some? then last.value.rowEstimate else 0, 0, NO_BAND, NullsFound)))
    else
      var note := if ColumnFor(s, f.subject.relation, f.subject.target).unique then NoNulls else NoStatistics;
      match ScanContext(s, f, note)
      case None => f
      case Some(c) => f.(context := Some(c))
  }

  function RuleContext(s: SnapshotSet, f: Finding): Finding {
    if f.ruleID == "PG006" || f.ruleID == "PG007" then f.(context := ScanContext(s, f, RewriteNote))
    else if f.ruleID == "PG017" then NotNullChecked(s, f)
    else if f.ruleID == "PG014" || f.ruleID == "PG015" then f.(context := DropIndexContext(s, f))
    else if f.ruleID == "PG021" then f.(context := ScanContext(s, f, ScanNote))
    else if f.ruleID == "K8S003" then f.(context := ClaimRemovalContext(s, f))
    else if f.ruleID == "K8S004" then f.(context := StorageDecreaseContext(s, f))
    else f
  }

  /** One finding after enrichment, the guard against a milder verdict included. */
  function Enriched(s: SnapshotSet, f: Finding): Finding {
    var g := RuleContext(s, f);
    var verdict := if g.reversibility.Severity() < f.reversibility.Severity() then f.reversibility else g.reversibility;
    g.(reversibility := verdict, lock := f.lock)
  }

  method EnrichAt(s: SnapshotSet, out: array<Finding>, i: nat)
    requires i < out.Length
    modifies out
    ensures forall k | 0 <= k < out.Length && k != i :: out[k] == old(out[k])
    ensures out[i] == RuleContext(s, old(out[i]))
  {
    var f := out[i];
    if f.ruleID == "PG006" || f.ruleID == "PG007" {
      out[i] := f.(context := ScanContext(s, f, RewriteNote));
    } else if f.ruleID == "PG017" {
      SetNotNull(s, out, i);
    } else if f.ruleID == "PG014" || f.ruleID == "PG015" {
      out[i] := f.(context := DropIndexContext(s, f));
    } else if f.ruleID == "PG021" {
      out[i] := f.(context := ScanContext(s, f, ScanNote));
    } else if f.ruleID == "K8S003" {
      out[i] := f.(context := ClaimRemovalContext(s, f));
    } else if f.ruleID == "K8S004" {
      out[i] := f.(context := StorageDecreaseContext(s, f));
    }
  }

  function EnrichAll(s: Option<SnapshotSet>, findings: seq<Finding>): seq<Finding> {
    if s.None? then findings else Map((f: Finding) => Enriched(s.value, f), findings)
  }

  /** Enriches a copy in place; the caller's findings are untouched. */
  method Enrich(s: Option<SnapshotSet>, findings: seq<Finding>) returns (r: seq<Finding>)
    ensures r == EnrichAll(s, findings)
  {
    if s.None? || |findings| == 0 {
      return findings;
    }
    var out := new Finding[|findings|](i requires 0 <= i < |findings| => findings[i]);
    for i := 0 to |findings|
      invariant forall k | 0 <= k < i :: out[k] == Enriched(s.value, findings[k])
      invariant forall k | i <= k < |findings| :: out[k] == findings[k]
    {
      var before := out[i];
      EnrichAt(s.value, out, i);
      if out[i].reversibility.Severity() < before.reversibility.Severity() {
        out[i] := out[i].(reversibility := before.reversibility);
      }
      out[i] := out[i].(lock := before.lock);
    }
    r := out[..];
  }

  // ---------------------------------------------------------------- what enrichment promises

  /**
   The ratchet on one finding: only the verdict and the context change, both only for the worse,
   and the verdict only to WILL_FAIL, exactly when production shows nulls under a SET NOT NULL.
   */
  lemma EnrichedIsRatchet(s: SnapshotSet, f: Finding)
    requires f.context.None?
    ensures var g := Enriched(s, f);
      && g == f.(reversibility := g.reversibility, context := g.context)
      && Worse(f, g)
      && (g.reversibility != f.reversibility <==>
            f.ruleID == "PG017" && HasNulls(s, f) && f.reversibility.Severity() < WillFail.Severity())
      && (g.reversibility != f.reversibility ==> g.reversibility == WillFail)
  {
    if f.ruleID == "PG017" {
      assert Enriched(s, f).context == NotNullChecked(s, f).context;
    } else {
      OnlyNotNullJudges(s, f);
    }
  }

  lemma OnlyNotNullJudges(s: SnapshotSet, f: Finding)
    requires f.ruleID != "PG017"
    ensures Enriched(s, f) == f.(context := Enriched(s, f).context)
  {
  }

  /** A qualified name is matched on schema and name, an unqualified one on the name alone, in any case. */
  lemma NamesColumnMeans(schema: string, table: string, column: string, c: Column)
    requires '.' !in table && Trim(table) == table && Trim(schema + "." + table) == schema + "." + table
    ensures NamesColumn(table, column)(c) <==> EqualFold(c.table, table) && EqualFold(c.name, column)
    ensures NamesColumn(schema + "." + table, column)(c) <==>
            (schema == "" || EqualFold(c.schema, schema)) && EqualFold(c.table, table) && EqualFold(c.name, column)
  {
    var parts := SplitLast(schema + "." + table, '.');
    assert schema + "." + table == schema + ['.'] + table;
    LastIsUnique(schema, table, parts.0, parts.1, '.');
  }

  lemma EndsInSeparator(head: string, tail: string, sep: char)
    requires sep !in tail
    ensures var s := head + [sep] + tail; tail == "" <==> s[|s| - 1] == sep
  {
    if tail != "" {
      assert tail[|tail| - 1] in tail;
    }
  }

  /** There is only one way to cut at the last separator. */
  lemma {:induction false} LastIsUnique(head: string, tail: string, front: string, back: string, sep: char)
    requires sep !in tail && sep !in back && head + [sep] + tail == front + [sep] + back
    ensures head == front && tail == back
    decreases |tail|
  {
    var s := head + [sep] + tail;
    EndsInSeparator(head, tail, sep);
    EndsInSeparator(front, back, sep);
    if tail == "" {
      assert s[..|s| - 1] == head == front;
    } else {
      var n, m := |tail| - 1, |back| - 1;
      assert s[..|s| - 1] == head + [sep] + tail[..n] == front + [sep] + back[..m];
      assert tail == tail[..n] + [s[|s| - 1]] && back == back[..m] + [s[|s| - 1]];
      LastIsUnique(head, tail[..n], front, back[..m], sep);
    }
  }

  /**
   Exactly when a snapshot makes a finding worse: it is a SET NOT NULL not known to fail, the snapshot
   has one column of that name, no more and no fewer, and some of its rows are null.
   */
  lemma RaisedExactly(s: SnapshotSet, f: Finding)
    requires f.context.None?
    ensures Enriched(s, f).reversibility != f.reversibility <==>
      && f.ruleID == "PG017" && f.reversibility.Valid() && !f.reversibility.WillFail?
      && s.postgres.Some? && f.subject.relation != "" && f.subject.target != ""
      && exists i: nat :: OnlyMatch(NamesColumn(f.subject.relation, f.subject.target), s.postgres.value.columns, i)
                          && s.postgres.value.columns[i].nullFraction > 0.0
  {
    EnrichedIsRatchet(s, f);
    NullsExactly(s, f);
  }

  lemma NullsExactly(s: SnapshotSet, f: Finding)
    ensures HasNulls(s, f) <==>
      && s.postgres.Some? && f.subject.relation != "" && f.subject.target != ""
      && exists i: nat :: OnlyMatch(NamesColumn(f.subject.relation, f.subject.target), s.postgres.value.columns, i)
                          && s.postgres.value.columns[i].nullFraction > 0.0
  {
    if s.postgres.Some? {
      var p, columns := NamesColumn(f.subject.relation, f.subject.target), s.postgres.value.columns;
      SingleMatch(p, columns);
      if i: nat :| OnlyMatch(p, columns, i) {
        OnlyMatchIsLast(p, columns, i);
      }
    }
  }

  lemma {:induction false} OnlyMatchIsLast<T>(p: T -> bool, xs: seq<T>, i: nat)
    requires OnlyMatch(p, xs, i)
    ensures Filter(p, xs) == [xs[i]]
  {
    if i == 0 {
      OnlyMatchTail(p, xs, 0);
    } else {
      OnlyMatchTail(p, xs, i - 1);
      OnlyMatchIsLast(p, xs[1..], i - 1);
    }
  }

  /** The rules whose context is about one table. */
  predicate AboutTable(rule: string) { rule == "PG006" || rule == "PG007" || rule == "PG017" || rule == "PG021" }

  /**
   A duration band is attached exactly to a finding about one table, under a scanning or rewriting lock,
   on a table that is the only match and whose size is known, unless nulls already decide it; and
   then it is the band of that size.
   */
  lemma BandedExactly(s: SnapshotSet, f: Finding)
    requires f.context.None?
    ensures var c, t := Enriched(s, f).context, TableFor(s, f.subject.relation);
      && (c.Some? && c.value.band != NO_BAND <==>
            && AboutTable(f.ruleID) && !(f.ruleID == "PG017" && HasNulls(s, f))
            && (f.lock.LockFullScan? || f.lock.LockTableRewrite?)
            && t.unique && TableSize(s, t.last.value).Some?)
      && (c.Some? && c.value.band != NO_BAND ==>
            && c.value.sizeBytes == TableSize(s, t.last.value).value
            && c.value.band == BandFor(c.value.sizeBytes, f.lock)
            && c.value.rowEstimate == t.last.value.rowEstimate)
  {
    if f.ruleID == "PG017" {
      assert Enriched(s, f).context == NotNullChecked(s, f).context;
      ScanBand(s, f, NoNulls);
      ScanBand(s, f, NoStatistics);
    } else if AboutTable(f.ruleID) {
      ScanBand(s, f, RewriteNote);
      ScanBand(s, f, ScanNote);
    } else {
      OthersHaveNoBand(s, f);
    }
  }

  lemma ScanBand(s: SnapshotSet, f: Finding, note: Note)
    ensures var c, t := ScanContext(s, f, note), TableFor(s, f.subject.relation);
      && (c.Some? && c.value.band != NO_BAND <==>
            (f.lock.LockFullScan? || f.lock.LockTableRewrite?) && t.unique && TableSize(s, t.last.value).Some?)
      && (c.Some? && c.value.band != NO_BAND ==>
            && c.value.sizeBytes == TableSize(s, t.last.value).value
            && c.value.band == BandFor(c.value.sizeBytes, f.lock)
            && c.value.rowEstimate == t.last.value.rowEstimate)
  {
    var t := TableFor(s, f.subject.relation);
    if t.unique && TableSize(s, t.last.value).Some? {
      SizeIsPositive(s, t.last.value);
      BandWhen(TableSize(s, t.last.value).value, f.lock);
    }
  }

  lemma SizeIsPositive(s: SnapshotSet, t: Table)
    requires TableSize(s, t).Some?
    ensures TableSize(s, t).value > 0
  {
    if t.sizeBytes <= 0 {
      WiderRows(t.rowEstimate, 1, Width(s.postgres.value.columns, t.schema, t.name));
    }
  }

  lemma BandWhen(size: int, lock: LockHazard)
    requires size > 0
    ensures BandFor(size, lock) != NO_BAND <==> lock.LockFullScan? || lock.LockTableRewrite?
  {
  }

  lemma OthersHaveNoBand(s: SnapshotSet, f: Finding)
    requires f.context.None? && !AboutTable(f.ruleID)
    ensures var c := Enriched(s, f).context; c.Some? ==> c.value.band == NO_BAND
  {
  }

  lemma ScanIgnoresFile(s: SnapshotSet, f: Finding, file: string, note: Note)
    ensures ScanContext(s, f.(file := file), note) == ScanContext(s, f, note)
  {
  }

  lemma NotNullIgnoresFile(s: SnapshotSet, f: Finding, file: string)
    ensures NotNullChecked(s, f.(file := file)) == NotNullChecked(s, f).(file := file)
  {
    ScanIgnoresFile(s, f, file, NoNulls);
    ScanIgnoresFile(s, f, file, NoStatistics);
  }

  lemma OthersIgnoreFile(s: SnapshotSet, f: Finding, file: string)
    ensures DropIndexContext(s, f.(file := file)) == DropIndexContext(s, f)
    ensures ClaimRemovalContext(s, f.(file := file)) == ClaimRemovalContext(s, f)
    ensures StorageDecreaseContext(s, f.(file := file)) == StorageDecreaseContext(s, f)
  {
  }

  lemma RulesIgnoreFile(s: SnapshotSet, f: Finding, file: string)
    ensures RuleContext(s, f.(file := file)) == RuleContext(s, f).(file := file)
  {
    if f.ruleID == "PG006" || f.ruleID == "PG007" {
      ScanIgnoresFile(s, f, file, RewriteNote);
    } else if f.ruleID == "PG017" {
      NotNullIgnoresFile(s, f, file);
    } else if f.ruleID == "PG021" {
      ScanIgnoresFile(s, f, file, ScanNote);
    } else {
      OthersIgnoreFile(s, f, file);
    }
  }

  /** Nothing production knows is looked up by the name of the file. */
  lemma EnrichmentIgnoresFile(s: SnapshotSet, f: Finding, file: string)
    ensures Enriched(s, f.(file := file)) == Enriched(s, f).(file := file)
  {
    RulesIgnoreFile(s, f, file);
  }

  /** A band is only ever computed where the lock already scans the table or worse. */
  lemma BandNeedsScan(s: SnapshotSet, f: Finding)
    requires f.context.None?
    ensures var c := Enriched(s, f).context; c.Some? && c.value.band != NO_BAND ==> f.lock.AtLeast(LockFullScan)
  {
  }

  function CeilingOf(band: Band): int { if band.Cap().None? then 3 else band.Cap().value.Rank() }

  /** Understating a size can only produce a milder ceiling. */
  lemma SmallerIsMilder(small: int, large: int, lock: LockHazard)
    requires small <= large
    ensures CeilingOf(BandFor(large, lock)) <= CeilingOf(BandFor(small, lock))
  {
  }

  lemma {:induction false} FewerColumnsNarrower(columns: seq<Column>, more: seq<Column>, schema: string, name: string)
    requires forall c | c in more :: c.averageWidth >= 0
    ensures Width(columns, schema, name) <= Width(columns + more, schema, name)
  {
    if more == [] {
      assert columns + more == columns;
    } else {
      var n := |more| - 1;
      var all := columns + more;
      assert all[..|all| - 1] == columns + more[..n] && all[|all| - 1] == more[n];
      assert more[n] in more;
      FewerColumnsNarrower(columns, more[..n], schema, name);
    }
  }

  lemma WiderRows(rows: int, narrow: int, wide: int)
    requires rows > 0 && narrow <= wide
    ensures rows * narrow <= rows * wide
  {
    assert rows * (wide - narrow) >= 0;
  }

  /** Statistics missing for some columns never worsen the ceiling derived from row widths. */
  lemma MissingStatisticsAreMilder(s: SnapshotSet, more: seq<Column>, t: Table, lock: LockHazard)
    requires s.postgres.Some? && forall c | c in more :: c.averageWidth >= 0
    requires TableSize(s, t).Some?
    ensures var full := s.(postgres := Some(s.postgres.value.(columns := s.postgres.value.columns + more)));
      && TableSize(full, t).Some?
      && CeilingOf(BandFor(TableSize(full, t).value, lock)) <= CeilingOf(BandFor(TableSize(s, t).value, lock))
  {
    var columns := s.postgres.value.columns;
    FewerColumnsNarrower(columns, more, t.schema, t.name);
    var narrow, wide := Width(columns, t.schema, t.name), Width(columns + more, t.schema, t.name);
    if t.sizeBytes <= 0 {
      WiderRows(t.rowEstimate, narrow, wide);
      SmallerIsMilder(t.rowEstimate * narrow, t.rowEstimate * wide, lock);
    }
  }

  /**
   Every lookup is documented to refuse an ambiguous match, and one number escapes. A finding whose
   table is not the only match gets context exactly for a SET NOT NULL on an unambiguous column with
   nulls, and then its row count is that of whichever match is listed last, or 0 without any.
   */
  lemma AmbiguousTableGetsContextExactly(s: SnapshotSet, f: Finding)
    requires f.context.None? && AboutTable(f.ruleID)
    ensures var t, context := TableFor(s, f.subject.relation), Enriched(s, f).context;
      && (!t.unique ==> (context.Some? <==> f.ruleID == "PG017" && HasNulls(s, f)))
      && (!t.unique && context.Some? ==>
            context.value.rowEstimate == if t.last.Some? then t.last.value.rowEstimate else 0)
  {
  }

  /** A snapshot in which half of users.email is null, beside whatever tables. */
  function UsersWithNullEmail(tables: seq<Table>): SnapshotSet {
    SnapshotSet(Some(PostgresData(tables, [], [Column("public", "users", "email", 0.5, 8)])), None)
  }

  /** SET NOT NULL on that column. */
  function EmailNotNull(file: string): Finding {
    Finding("PG017", file, 1, "", Costly, LockFullScan, NoUndo, Subject("users", "email"), None)
  }

  lemma UsersIsUnqualified()
    ensures SplitQualified("users") == ("", "users")
  {
    assert Trim("users") == "users";
  }

  lemma EmailHasNulls(tables: seq<Table>, f: Finding)
    requires f.subject == Subject("users", "email")
    ensures HasNulls(UsersWithNullEmail(tables), f)
  {
    UsersIsUnqualified();
    FilterAll(NamesColumn("users", "email"), [Column("public", "users", "email", 0.5, 8)]);
  }

  lemma NullsBehindNotNull(file: string) returns (s: SnapshotSet, f: Finding)
    ensures f.context.None? && f.ruleID == "PG017" && f.reversibility.Costly? && HasNulls(s, f)
  {
    s, f := UsersWithNullEmail([]), EmailNotNull(file);
    EmailHasNulls([], f);
  }

  /** Enrichment does raise a verdict: a SET NOT NULL over nulls was survivable and now fails. */
  lemma NullsRaiseVerdict()
    ensures exists s: SnapshotSet, f: Finding ::
      f.context.None? && f.reversibility.Costly? && HasNulls(s, f) && Enriched(s, f).reversibility.WillFail?
  {
    var s, f := NullsBehindNotNull("a.sql");
    EnrichedIsRatchet(s, f);
  }

  lemma UsersIsAmbiguous(other: Table)
    requires other.schema == "archive" && other.name == "users"
    ensures TableFor(UsersWithNullEmail([Table("public", "users", 10, 1, 1), other]), "users") ==
            Lookup(Some(other), false)
  {
    UsersIsUnqualified();
    var ref := ("", "users");
    FilterAll((t: Table) => SameObject(ref, t.schema, t.name), [Table("public", "users", 10, 1, 1), other]);
  }

  /** Such a finding exists, and the count it carries is the other table's. */
  lemma AmbiguousTableLeaksRowEstimate(other: Table, file: string)
    requires other.schema == "archive" && other.name == "users"
    ensures var s := UsersWithNullEmail([Table("public", "users", 10, 1, 1), other]);
            var f := EmailNotNull(file);
      && !TableFor(s, "users").unique
      && Enriched(s, f).context.Some?
      && Enriched(s, f).context.value.rowEstimate == other.rowEstimate
  {
    var tables := [Table("public", "users", 10, 1, 1), other];
    EmailHasNulls(tables, EmailNotNull(file));
    UsersIsAmbiguous(other);
    AmbiguousTableGetsContextExactly(UsersWithNullEmail(tables), EmailNotNull(file));
  }
}
