/**
 The policy: overrides that tighten verdicts, waivers that set findings aside until a day, and
 patterns that exclude paths.

 `covers` is the matcher of a `path:` glob against a finding's file, already located.
 */
module Policy {
  import opened Domain
  import opened Dominance
  import opened Paths
  import Sorting

  /** `expires` is the last day the waiver applies; None is a date nobody can read. */
  datatype Waiver = Waiver(rule: string, path: string, reason: string, expires: Option<int>, approvedBy: string)
  datatype Override = Override(rule: string, severity: Reversibility)
  datatype PolicyFile = PolicyFile(gate: Grade, ignore: seq<string>, waivers: seq<Waiver>, overrides: seq<Override>)

  datatype PolicyError = LooseningOverride(override: Override, found: Reversibility, file: string)

  datatype WaivedFinding = WaivedFinding(finding: Finding, reason: string, expires: Option<int>, approvedBy: string)

  datatype Decision = Decision(
    all: seq<Finding>, findings: seq<Finding>, waived: seq<WaivedFinding>, deadWaivers: seq<nat>)

  type Covers = (string, string) -> bool

  // ---------------------------------------------------------------- overrides

  function Tightened(overrides: seq<Override>, f: Finding): Result<Finding, PolicyError>
    decreases |overrides|
  {
    if overrides == [] then Ok(f)
    else if overrides[0].rule != f.ruleID then Tightened(overrides[1..], f)
    else if overrides[0].severity.Severity() < f.reversibility.Severity() then
      Err(LooseningOverride(overrides[0], f.reversibility, f.file))
    else Tightened(overrides[1..], f.(reversibility := overrides[0].severity))
  }

  function TightenedAll(overrides: seq<Override>, findings: seq<Finding>): Result<seq<Finding>, PolicyError> {
    if findings == [] then Ok([])
    else match Tightened(overrides, findings[0])
      case Err(e) => Err(e)
      case Ok(f) =>
        match TightenedAll(overrides, findings[1..])
        case Err(e) => Err(e)
        case Ok(rest) => Ok([f] + rest)
  }

  function Prefixed(out: seq<Finding>, r: Result<seq<Finding>, PolicyError>): Result<seq<Finding>, PolicyError> {
    match r
    case Err(e) => Err(e)
    case Ok(rest) => Ok(out + rest)
  }

  lemma PrefixedStep(overrides: seq<Override>, out: seq<Finding>, findings: seq<Finding>, i: nat)
    requires i < |findings|
    ensures Prefixed([], TightenedAll(overrides, findings)) == TightenedAll(overrides, findings)
    ensures match Tightened(overrides, findings[i])
      case Err(e) => Prefixed(out, TightenedAll(overrides, findings[i..])) == Err(e)
      case Ok(f) => Prefixed(out, TightenedAll(overrides, findings[i..])) ==
                    Prefixed(out + [f], TightenedAll(overrides, findings[i + 1..]))
  {
    assert findings[i..][1..] == findings[i + 1..];
    var all := TightenedAll(overrides, findings);
    if all.Ok? {
      assert [] + all.value == all.value;
    }
    match (Tightened(overrides, findings[i]), TightenedAll(overrides, findings[i + 1..])) {
      case (Ok(f), Ok(rest)) => assert out + ([f] + rest) == out + [f] + rest;
      case _ =>
    }
  }

  method ApplyOverrides(overrides: seq<Override>, findings: seq<Finding>)
    returns (r: Result<seq<Finding>, PolicyError>)
    ensures r == TightenedAll(overrides, findings)
  {
    if |overrides| == 0 {
      NoOverrides(findings);
      return Ok(findings);
    }
    var out: seq<Finding> := [];
    for i := 0 to |findings|
      invariant i == 0 ==> out == []
      invariant i > 0 ==> TightenedAll(overrides, findings) == Prefixed(out, TightenedAll(overrides, findings[i..]))
    {
      var f := findings[i];
      PrefixedStep(overrides, out, findings, i);
      assert findings[0..] == findings;
      for j := 0 to |overrides|
        invariant Tightened(overrides, findings[i]) == Tightened(overrides[j..], f)
      {
        var o := overrides[j];
        assert overrides[j..][1..] == overrides[j + 1..];
        if o.rule != f.ruleID {
          continue;
        }
        if o.severity.Severity() < f.reversibility.Severity() {
          return Err(LooseningOverride(o, f.reversibility, f.file));
        }
        f := f.(reversibility := o.severity);
      }
      out := out + [f];
    }
    assert out + [] == out;
    return Ok(out);
  }

  lemma {:induction false} NoOverrides(findings: seq<Finding>)
    ensures TightenedAll([], findings) == Ok(findings)
  {
    if findings != [] {
      NoOverrides(findings[1..]);
      assert findings == [findings[0]] + findings[1..];
    }
  }

  /** Each verdict in turn at least as severe as the one before it. */
  predicate Escalates(from: Reversibility, overrides: seq<Override>)
    decreases |overrides|
  {
    overrides == [] ||
    (from.Severity() <= overrides[0].severity.Severity() && Escalates(overrides[0].severity, overrides[1..]))
  }

  predicate AppliesTo(rule: string, o: Override) { o.rule == rule }

  /** The overrides naming a rule, in the order they are written. */
  function Named(overrides: seq<Override>, rule: string): seq<Override> {
    Filter((o: Override) => AppliesTo(rule, o), overrides)
  }

  /** No policy at all overrides nothing and waives nothing. */
  function OverridesOf(policy: Option<PolicyFile>): seq<Override> { if policy.Some? then policy.value.overrides else [] }
  function WaiversOf(policy: Option<PolicyFile>): seq<Waiver> { if policy.Some? then policy.value.waivers else [] }

  /**
   Overrides only ever tighten: they are accepted exactly when the ones naming the rule escalate
   from the verdict found, and then the last of them is the verdict.
   */
  lemma {:induction false} TightenedMeaning(overrides: seq<Override>, f: Finding)
    ensures var named := Named(overrides, f.ruleID);
      && (Tightened(overrides, f).Ok? <==> Escalates(f.reversibility, named))
      && (Tightened(overrides, f).Ok? ==>
            && Tightened(overrides, f).value ==
                 f.(reversibility := if named == [] then f.reversibility else named[|named| - 1].severity)
            && f.reversibility.Severity() <= Tightened(overrides, f).value.reversibility.Severity())
    decreases |overrides|
  {
    if overrides != [] {
      var named, rest := Named(overrides, f.ruleID), Named(overrides[1..], f.ruleID);
      if overrides[0].rule == f.ruleID {
        TightenedMeaning(overrides[1..], f.(reversibility := overrides[0].severity));
        assert named[0] == overrides[0] && named[1..] == rest;
        assert rest != [] ==> named[|named| - 1] == rest[|rest| - 1];
      } else {
        TightenedMeaning(overrides[1..], f);
        assert named == rest;
      }
    }
  }

  /** At or behind `from` in the order of verdicts, an undefined one last. */
  predicate NoMilder(from: Reversibility, to: Reversibility) {
    match from
    case Reversible => true
    case Costly => !to.Reversible?
    case Unknown => !to.Reversible? && !to.Costly?
    case Irreversible => to.Irreversible? || to.WillFail? || to.OtherVerdict?
    case WillFail => to.WillFail? || to.OtherVerdict?
    case OtherVerdict(_) => to.OtherVerdict?
  }

  lemma SeverityIsThatOrder(from: Reversibility, to: Reversibility)
    ensures from.Severity() <= to.Severity() <==> NoMilder(from, to)
  {
  }

  /**
   The order overrides must respect is REVERSIBLE, COSTLY, UNKNOWN, IRREVERSIBLE, WILL_FAIL: a single
   override is accepted exactly for a verdict no milder than the one found, and no number of them softens one.
   */
  lemma OverridesNeverSoften(overrides: seq<Override>, f: Finding)
    ensures Tightened(overrides, f).Ok? ==> NoMilder(f.reversibility, Tightened(overrides, f).value.reversibility)
    ensures |Named(overrides, f.ruleID)| == 1 ==>
            (Tightened(overrides, f).Ok? <==> NoMilder(f.reversibility, Named(overrides, f.ruleID)[0].severity))
  {
    TightenedMeaning(overrides, f);
    var named := Named(overrides, f.ruleID);
    if |named| == 1 {
      SeverityIsThatOrder(f.reversibility, named[0].severity);
      assert named[1..] == [];
    }
    if Tightened(overrides, f).Ok? {
      SeverityIsThatOrder(f.reversibility, Tightened(overrides, f).value.reversibility);
    }
  }

  // ---------------------------------------------------------------- waivers

  predicate Expired(w: Waiver, today: int) { w.expires.None? || today > w.expires.value }

  /** A risk nobody characterised, or a statement known to abort, is not one anybody can accept. */
  predicate Waivable(f: Finding) {
    f.reversibility.Valid() && f.reversibility != Unknown && f.reversibility != WillFail
  }

  predicate Live(covers: Covers, today: int, w: Waiver, f: Finding) {
    w.rule == f.ruleID && (w.path == "" || covers(w.path, f.file)) && !Expired(w, today)
  }

  function FirstLive(covers: Covers, today: int, waivers: seq<Waiver>, f: Finding): (r: Option<nat>)
    ensures r.Some? ==>
      && r.value < |waivers|
      && Live(covers, today, waivers[r.value], f)
      && forall j | 0 <= j < r.value :: !Live(covers, today, waivers[j], f)
    ensures r.None? ==> forall j | 0 <= j < |waivers| :: !Live(covers, today, waivers[j], f)
  {
    if waivers == [] then None
    else
      var n := |waivers| - 1;
      var earlier := FirstLive(covers, today, waivers[..n], f);
      if earlier.Some? then earlier else if Live(covers, today, waivers[n], f) then Some(n) else None
  }

  function WaiverOf(covers: Covers, today: int, waivers: seq<Waiver>, f: Finding): Option<nat> {
    if Waivable(f) then FirstLive(covers, today, waivers, f) else None
  }

  method WaiverFor(covers: Covers, today: int, waivers: seq<Waiver>, f: Finding) returns (r: Option<nat>)
    ensures r == WaiverOf(covers, today, waivers, f)
  {
    if f.reversibility == Unknown || f.reversibility == WillFail || !f.reversibility.Valid() {
      return None;
    }
    for i := 0 to |waivers|
      invariant forall j | 0 <= j < i :: !Live(covers, today, waivers[j], f)
    {
      var w := waivers[i];
      if w.rule != f.ruleID {
        continue;
      }
      if w.path != "" && !covers(w.path, f.file) {
        continue;
      }
      if Expired(w, today) {
        continue;
      }
      return Some(i);
    }
    return None;
  }

  // ---------------------------------------------------------------- the decision

  function IsWaived(covers: Covers, today: int, waivers: seq<Waiver>): Finding -> bool {
    (f: Finding) => WaiverOf(covers, today, waivers, f).Some?
  }

  function Counts(covers: Covers, today: int, waivers: seq<Waiver>): Finding -> bool {
    (f: Finding) => WaiverOf(covers, today, waivers, f).None?
  }

  function Waive(covers: Covers, today: int, waivers: seq<Waiver>): Finding -> WaivedFinding {
    (f: Finding) =>
      match WaiverOf(covers, today, waivers, f)
      case None => WaivedFinding(f, "", None, "")
      case Some(i) => WaivedFinding(f, waivers[i].reason, waivers[i].expires, waivers[i].approvedBy)
  }

  predicate WaivedLe(a: WaivedFinding, b: WaivedFinding) { FindingLe(a.finding, b.finding) }

  function Fired(covers: Covers, today: int, waivers: seq<Waiver>, all: seq<Finding>): set<nat> {
    set f | f in all && WaiverOf(covers, today, waivers, f).Some? :: WaiverOf(covers, today, waivers, f).value
  }

  function DeadBelow(fired: set<nat>, n: nat): seq<nat> {
    if n == 0 then [] else DeadBelow(fired, n - 1) + (if n - 1 in fired then [] else [n - 1])
  }

  function Decide(covers: Covers, today: int, waivers: seq<Waiver>, all: seq<Finding>): Decision {
    Decision(all,
             Filter(Counts(covers, today, waivers), all),
             Sorting.Sort(WaivedLe, Map(Waive(covers, today, waivers), Filter(IsWaived(covers, today, waivers), all))),
             DeadBelow(Fired(covers, today, waivers, all), |waivers|))
  }

  function Applied(policy: Option<PolicyFile>, covers: Covers, today: int, findings: seq<Finding>)
    : Result<Decision, PolicyError>
  {
    match policy
    case None => Ok(Decision(findings, findings, [], []))
    case Some(p) =>
      match TightenedAll(p.overrides, findings)
      case Err(e) => Err(e)
      case Ok(all) => Ok(Decide(covers, today, p.waivers, all))
  }

  /** Overrides tighten first; waivers are matched against the result. */
  method Apply(policy: Option<PolicyFile>, covers: Covers, today: int, findings: seq<Finding>)
    returns (r: Result<Decision, PolicyError>)
    ensures r == Applied(policy, covers, today, findings)
  {
    if policy.None? {
      return Ok(Decision(findings, findings, [], []));
    }
    var waivers := policy.value.waivers;
    var tightened := ApplyOverrides(policy.value.overrides, findings);
    if tightened.Err? {
      return Err(tightened.error);
    }
    var all := tightened.value;
    var counted, waived, fired := SetAside(covers, today, waivers, all);
    waived := Sorting.Sort(WaivedLe, waived);
    var dead := ListDead(fired, |waivers|);
    return Ok(Decision(all, counted, waived, dead));
  }

  method SetAside(covers: Covers, today: int, waivers: seq<Waiver>, all: seq<Finding>)
    returns (counted: seq<Finding>, waived: seq<WaivedFinding>, fired: set<nat>)
    ensures counted == Filter(Counts(covers, today, waivers), all)
    ensures waived == Map(Waive(covers, today, waivers), Filter(IsWaived(covers, today, waivers), all))
    ensures fired == Fired(covers, today, waivers, all)
  {
    counted, waived, fired := [], [], {};
    for i := 0 to |all|
      invariant counted == Filter(Counts(covers, today, waivers), all[..i])
      invariant waived == Map(Waive(covers, today, waivers), Filter(IsWaived(covers, today, waivers), all[..i]))
      invariant fired == Fired(covers, today, waivers, all[..i])
    {
      var f := all[i];
      SetAsideStep(covers, today, waivers, all, i);
      var index := WaiverFor(covers, today, waivers, f);
      if index.None? {
        counted := counted + [f];
        continue;
      }
      fired := fired + {index.value};
      var w := waivers[index.value];
      waived := waived + [WaivedFinding(f, w.reason, w.expires, w.approvedBy)];
    }
    assert all[..|all|] == all;
  }

  lemma SetAsideStep(covers: Covers, today: int, waivers: seq<Waiver>, all: seq<Finding>, i: nat)
    requires i < |all|
    ensures var counts, isWaived := Counts(covers, today, waivers), IsWaived(covers, today, waivers);
            var waive := Waive(covers, today, waivers);
      match WaiverOf(covers, today, waivers, all[i])
      case None =>
        && Filter(counts, all[..i + 1]) == Filter(counts, all[..i]) + [all[i]]
        && Map(waive, Filter(isWaived, all[..i + 1])) == Map(waive, Filter(isWaived, all[..i]))
        && Fired(covers, today, waivers, all[..i + 1]) == Fired(covers, today, waivers, all[..i])
      case Some(k) =>
        && Filter(counts, all[..i + 1]) == Filter(counts, all[..i])
        && Map(waive, Filter(isWaived, all[..i + 1])) == Map(waive, Filter(isWaived, all[..i])) +
             [WaivedFinding(all[i], waivers[k].reason, waivers[k].expires, waivers[k].approvedBy)]
        && Fired(covers, today, waivers, all[..i + 1]) == Fired(covers, today, waivers, all[..i]) + {k}
  {
    FilterStep(Counts(covers, today, waivers), all, i);
    CollectStep(IsWaived(covers, today, waivers), Waive(covers, today, waivers), all, i);
    assert all[..i + 1] == all[..i] + [all[i]];
    FiredStep(covers, today, waivers, all[..i], all[i]);
  }

  method ListDead(fired: set<nat>, n: nat) returns (dead: seq<nat>)
    ensures dead == DeadBelow(fired, n)
  {
    dead := [];
    for i := 0 to n
      invariant dead == DeadBelow(fired, i)
    {
      if i in fired {
        continue;
      }
      dead := dead + [i];
    }
  }

  lemma FiredStep(covers: Covers, today: int, waivers: seq<Waiver>, all: seq<Finding>, f: Finding)
    ensures Fired(covers, today, waivers, all + [f]) == Fired(covers, today, waivers, all) +
            match WaiverOf(covers, today, waivers, f) case None => {} case Some(i) => {i}
  {
    forall g ensures g in all + [f] <==> g in all || g == f {}
  }

  // ---------------------------------------------------------------- what applying conserves

  function Unwrap(w: WaivedFinding): Finding { w.finding }

  lemma {:induction false} UnwrapWaived(covers: Covers, today: int, waivers: seq<Waiver>, xs: seq<Finding>)
    ensures Map(Unwrap, Map(Waive(covers, today, waivers), xs)) == xs
  {
    if xs != [] {
      UnwrapWaived(covers, today, waivers, xs[1..]);
      assert Map(Waive(covers, today, waivers), xs)[1..] == Map(Waive(covers, today, waivers), xs[1..]);
    }
  }

  lemma Regroup<T>(a: multiset<T>, b: multiset<T>, c: multiset<T>)
    ensures b + (a + c) == a + (b + c) && (a + b) + c == a + (b + c)
  {
  }

  /** No finding is lost, duplicated or altered between the two lists. */
  lemma DecisionConserves(covers: Covers, today: int, waivers: seq<Waiver>, all: seq<Finding>)
    ensures var d := Decide(covers, today, waivers, all);
      multiset(d.findings) + multiset(Map(Unwrap, d.waived)) == multiset(all)
  {
    var p, q := IsWaived(covers, today, waivers), Counts(covers, today, waivers);
    UnwrapSorted(covers, today, waivers, all);
    Partitioned(p, q, all);
  }

  lemma HeadMultiset<T>(x: T, xs: seq<T>)
    ensures multiset([x] + xs) == multiset{x} + multiset(xs)
  {
  }

  lemma {:induction false} Partitioned<T>(p: T -> bool, q: T -> bool, xs: seq<T>)
    requires forall x :: p(x) == !q(x)
    ensures multiset(Filter(q, xs)) + multiset(Filter(p, xs)) == multiset(xs)
  {
    if xs != [] {
      var x, rest := xs[0], xs[1..];
      var kept, left := Filter(q, rest), Filter(p, rest);
      Partitioned(p, q, rest);
      assert xs == [x] + rest;
      HeadMultiset(x, rest);
      Regroup(multiset{x}, multiset(kept), multiset(left));
      if p(x) {
        HeadMultiset(x, left);
        assert Filter(q, xs) == kept && Filter(p, xs) == [x] + left;
      } else {
        HeadMultiset(x, kept);
        assert Filter(q, xs) == [x] + kept && Filter(p, xs) == left;
      }
    }
  }

  /**
   A finding is set aside exactly when its verdict is one that can be accepted and some waiver names
   its rule, is for every path or covers its file, and runs through today, its last day included.
   The rest still counts; waived findings come sorted.
   */
  lemma DecisionOrders(covers: Covers, today: int, waivers: seq<Waiver>, all: seq<Finding>, f: Finding)
    ensures var d := Decide(covers, today, waivers, all);
            var aside := (f.reversibility.Reversible? || f.reversibility.Costly? || f.reversibility.Irreversible?)
              && exists w | w in waivers ::
                   && w.rule == f.ruleID
                   && (w.path == "" || covers(w.path, f.file))
                   && w.expires.Some? && today <= w.expires.value;
      && (f in d.findings <==> f in all && !aside)
      && (f in Map(Unwrap, d.waived) <==> f in all && aside)
      && Sorting.Sorted(WaivedLe, d.waived)
  {
    WaiverExists(covers, today, waivers, f);
    DecisionLists(covers, today, waivers, all, f);
  }

  lemma DecisionLists(covers: Covers, today: int, waivers: seq<Waiver>, all: seq<Finding>, f: Finding)
    ensures var d, waiver := Decide(covers, today, waivers, all), WaiverOf(covers, today, waivers, f);
      && (f in d.findings <==> f in all && waiver.None?)
      && (f in Map(Unwrap, d.waived) <==> f in all && waiver.Some?)
      && Sorting.Sorted(WaivedLe, d.waived)
  {
    FilterMember(Counts(covers, today, waivers), all, f);
    FilterMember(IsWaived(covers, today, waivers), all, f);
    UnwrapSorted(covers, today, waivers, all);
    WaivedOrder();
    Sorting.SortSorted(WaivedLe, Map(Waive(covers, today, waivers), Filter(IsWaived(covers, today, waivers), all)));
  }

  lemma WaiverExists(covers: Covers, today: int, waivers: seq<Waiver>, f: Finding)
    ensures WaiverOf(covers, today, waivers, f).Some? <==>
      && (f.reversibility.Reversible? || f.reversibility.Costly? || f.reversibility.Irreversible?)
      && exists w | w in waivers ::
           && w.rule == f.ruleID
           && (w.path == "" || covers(w.path, f.file))
           && w.expires.Some? && today <= w.expires.value
  {
    assert forall w :: Live(covers, today, w, f) <==>
      w.rule == f.ruleID && (w.path == "" || covers(w.path, f.file)) && w.expires.Some? && today <= w.expires.value;
    match FirstLive(covers, today, waivers, f) {
      case Some(i) => assert waivers[i] in waivers;
      case None =>
    }
  }

  lemma UnwrapSorted(covers: Covers, today: int, waivers: seq<Waiver>, all: seq<Finding>)
    ensures multiset(Map(Unwrap, Decide(covers, today, waivers, all).waived)) ==
            multiset(Filter(IsWaived(covers, today, waivers), all))
    ensures forall f :: f in Map(Unwrap, Decide(covers, today, waivers, all).waived) <==>
                        f in Filter(IsWaived(covers, today, waivers), all)
  {
    var kept := Filter(IsWaived(covers, today, waivers), all);
    var waived := Decide(covers, today, waivers, all).waived;
    MapPermutes(Unwrap, waived, Map(Waive(covers, today, waivers), kept));
    UnwrapWaived(covers, today, waivers, kept);
    forall f ensures f in Map(Unwrap, waived) <==> f in kept {
      assert f in multiset(Map(Unwrap, waived)) <==> f in multiset(kept);
    }
  }

  lemma WaivedOrder()
    ensures Sorting.TotalPreorder(WaivedLe)
  {
    forall a: WaivedFinding, b: WaivedFinding ensures WaivedLe(a, b) || WaivedLe(b, a) {
      FindingLeTotal(a.finding, b.finding);
    }
    forall a: WaivedFinding, b: WaivedFinding, c: WaivedFinding | WaivedLe(a, b) && WaivedLe(b, c)
      ensures WaivedLe(a, c)
    {
      FindingLeTransitive(a.finding, b.finding, c.finding);
    }
  }

  /** A waived finding is one somebody may accept, and carries the first waiver live for it. */
  lemma WaivedCarriesFirstLive(covers: Covers, today: int, waivers: seq<Waiver>, all: seq<Finding>, w: WaivedFinding)
    requires w in Decide(covers, today, waivers, all).waived
    ensures w.finding in all && Waivable(w.finding)
    ensures exists i | 0 <= i < |waivers| ::
      && Live(covers, today, waivers[i], w.finding)
      && (forall j | 0 <= j < i :: !Live(covers, today, waivers[j], w.finding))
      && w == WaivedFinding(w.finding, waivers[i].reason, waivers[i].expires, waivers[i].approvedBy)
  {
    var kept := Filter(IsWaived(covers, today, waivers), all);
    var wrapped := Map(Waive(covers, today, waivers), kept);
    assert w in multiset(Sorting.Sort(WaivedLe, wrapped));
    var k :| 0 <= k < |wrapped| && wrapped[k] == w;
    FilterMember(IsWaived(covers, today, waivers), all, kept[k]);
  }

  /** The override that decides, the last naming the rule, calls it IRREVERSIBLE. */
  predicate CalledIrreversible(overrides: seq<Override>, rule: string) {
    var named := Named(overrides, rule);
    named != [] && named[|named| - 1].severity == Irreversible
  }

  /**
   UNKNOWN is not waivable, yet it ranks below IRREVERSIBLE for overrides, and overrides run first.
   So a finding nobody could characterise is waived exactly when an override relabels it
   IRREVERSIBLE and some waiver is live for it.
   */
  lemma UnknownWaivedExactly(overrides: seq<Override>, covers: Covers, today: int, waivers: seq<Waiver>, f: Finding)
    requires f.reversibility.Unknown? && Tightened(overrides, f).Ok?
    ensures WaiverOf(covers, today, waivers, Tightened(overrides, f).value).Some? <==>
            CalledIrreversible(overrides, f.ruleID) && exists w | w in waivers :: Live(covers, today, w, f)
  {
    TightenedMeaning(overrides, f);
    var g := Tightened(overrides, f).value;
    assert Waivable(g) <==> CalledIrreversible(overrides, f.ruleID);
    assert forall w :: Live(covers, today, w, g) == Live(covers, today, w, f);
    match FirstLive(covers, today, waivers, g) {
      case Some(i) => assert waivers[i] in waivers;
      case None =>
    }
  }

  /** What production state proves cannot apply stays out of every waiver's reach. */
  lemma WillFailNeverWaived(overrides: seq<Override>, covers: Covers, today: int, waivers: seq<Waiver>, f: Finding)
    requires f.reversibility.WillFail? && Tightened(overrides, f).Ok?
    ensures WaiverOf(covers, today, waivers, Tightened(overrides, f).value).None?
  {
    TightenedMeaning(overrides, f);
  }

  lemma {:induction false} DeadBelowMember(fired: set<nat>, n: nat)
    ensures forall i: nat :: i in DeadBelow(fired, n) <==> i < n && i !in fired
    ensures forall i, j | 0 <= i < j < |DeadBelow(fired, n)| :: DeadBelow(fired, n)[i] < DeadBelow(fired, n)[j]
  {
    if n > 0 {
      DeadBelowMember(fired, n - 1);
      var earlier := DeadBelow(fired, n - 1);
      forall k | 0 <= k < |earlier| ensures earlier[k] < n - 1 {
        assert earlier[k] in earlier;
      }
    }
  }

  /** A waiver is reported dead exactly when it was nobody's first match. */
  lemma DeadExactly(covers: Covers, today: int, waivers: seq<Waiver>, all: seq<Finding>, i: nat)
    ensures i in Decide(covers, today, waivers, all).deadWaivers <==>
            i < |waivers| && forall f | f in all :: WaiverOf(covers, today, waivers, f) != Some(i)
  {
    var fired := Fired(covers, today, waivers, all);
    DeadBelowMember(fired, |waivers|);
    if f :| f in all && WaiverOf(covers, today, waivers, f) == Some(i) {
      assert i in fired;
    }
  }

  // ---------------------------------------------------------------- comparing policies and days

  /** Appending a waiver changes no finding that was waived, and can only add to them. */
  lemma AppendedWaiverKeepsMatches(covers: Covers, today: int, waivers: seq<Waiver>, w: Waiver, f: Finding)
    requires WaiverOf(covers, today, waivers, f).Some?
    ensures WaiverOf(covers, today, waivers + [w], f) == WaiverOf(covers, today, waivers, f)
  {
    assert (waivers + [w])[..|waivers|] == waivers;
  }

  /** What is waived on a later day was waived on every earlier one. */
  lemma WaiversOnlyLapse(covers: Covers, earlier: int, later: int, waivers: seq<Waiver>, f: Finding)
    requires earlier <= later && WaiverOf(covers, later, waivers, f).Some?
    ensures WaiverOf(covers, earlier, waivers, f).Some?
  {
    var i := WaiverOf(covers, later, waivers, f).value;
    assert Live(covers, earlier, waivers[i], f);
  }

  // ---------------------------------------------------------------- ignore patterns

  /** Whether a pattern covers a located path; the engine's answer is Glob.Match. */
  type Matcher = (string, Located) -> bool

  predicate Ignored(covers: Matcher, ignore: seq<string>, at: Located) {
    exists pattern | pattern in ignore :: covers(pattern, at)
  }

  function NotIn(matched: set<string>): string -> bool { (p: string) => p !in matched }

  /** The ignore list, remembering which of its patterns ever matched anything. */
  class IgnoreMatcher {
    const covers: Matcher
    const ignore: seq<string>
    var matched: set<string>
    ghost var asked: seq<Located>

    ghost predicate Valid()
      reads this
    {
      forall pattern :: pattern in matched <==>
        pattern in ignore && exists at | at in asked :: covers(pattern, at)
    }

    constructor (covers: Matcher, ignore: seq<string>)
      ensures Valid() && asked == [] && this.covers == covers && this.ignore == ignore
    {
      this.covers, this.ignore := covers, ignore;
      matched, asked := {}, [];
    }

    /** Every matching pattern is recorded, not only the first. */
    method Ignores(at: Located) returns (ignored: bool)
      requires Valid()
      modifies this
      ensures Valid() && asked == old(asked) + [at]
      ensures ignored <==> Ignored(covers, ignore, at)
    {
      ignored := false;
      for i := 0 to |ignore|
        invariant asked == old(asked)
        invariant ignored <==> exists j | 0 <= j < i :: covers(ignore[j], at)
        invariant forall pattern :: pattern in matched <==>
          pattern in old(matched) || (pattern in ignore[..i] && covers(pattern, at))
      {
        if covers(ignore[i], at) {
          matched := matched + {ignore[i]};
          ignored := true;
        }
      }
      assert ignore[..|ignore|] == ignore;
      asked := asked + [at];
    }

    /** The patterns that matched no path asked about, in the order they were written. */
    method Dead() returns (out: seq<string>)
      requires Valid()
      ensures out == Filter(NotIn(matched), ignore)
      ensures forall pattern :: pattern in out <==>
        pattern in ignore && forall at | at in asked :: !covers(pattern, at)
    {
      out := [];
      for i := 0 to |ignore|
        invariant out == Filter(NotIn(matched), ignore[..i])
      {
        FilterStep(NotIn(matched), ignore, i);
        if ignore[i] !in matched {
          out := out + [ignore[i]];
        }
      }
      assert ignore[..|ignore|] == ignore;
      forall pattern ensures pattern in out <==> pattern in ignore && pattern !in matched {
        FilterMember(NotIn(matched), ignore, pattern);
      }
    }
  }
}
