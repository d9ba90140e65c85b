/**
 Column types and the direction of a conversion between two of them, against the values each type
 can hold.
 */
module SqlTypes {
  import opened Text

  /** `varchar(10)` is name "varchar" with mods [10]; names arrive as the parser resolved them. */
  datatype SqlType = SqlType(name: string, mods: seq<int>)

  datatype WidthChange = WidthUnknown | Narrowing | Widening | WidthSame

  datatype Family =
    | Integer(rank: nat) | TextFamily | Varchar | Numeric | Timestamptz | DateFamily
    | OtherFamily(name: string)

  function FamilyOf(t: SqlType): Family {
    var name := ToLower(t.name);
    if name == "int2" then Integer(1)
    else if name == "int4" then Integer(2)
    else if name == "int8" then Integer(3)
    else if name == "text" then TextFamily
    else if name == "varchar" then Varchar
    else if name == "numeric" then Numeric
    else if name == "timestamptz" then Timestamptz
    else if name == "date" then DateFamily
    else OtherFamily(name)
  }

  predicate IsCharacter(f: Family) { f.TextFamily? || f.Varchar? }

  /** None is unbounded: text always is, and varchar is without a modifier. */
  datatype Bound = Unbounded | Limit(n: int)

  function CharLimit(f: Family, t: SqlType): Bound {
    if f.TextFamily? || |t.mods| == 0 then Unbounded else Limit(t.mods[0])
  }

  datatype NumericBound = AnyNumeric | Digits(precision: int, scale: int)

  function NumericMods(t: SqlType): NumericBound {
    if |t.mods| == 0 then AnyNumeric
    else if |t.mods| == 1 then Digits(t.mods[0], 0)
    else Digits(t.mods[0], t.mods[1])
  }

  function CompareLimits(from: Bound, to: Bound): WidthChange {
    match (from, to)
    case (Unbounded, Unbounded) => WidthSame
    case (Unbounded, Limit(_)) => Narrowing
    case (Limit(_), Unbounded) => Widening
    case (Limit(m), Limit(n)) => if n < m then Narrowing else if n > m then Widening else WidthSame
  }

  function CompareNumeric(from: NumericBound, to: NumericBound): WidthChange {
    match (from, to)
    case (AnyNumeric, AnyNumeric) => WidthSame
    case (AnyNumeric, Digits(_, _)) => Narrowing
    case (Digits(_, _), AnyNumeric) => Widening
    case (Digits(p, s), Digits(p', s')) =>
      if p' < p || s' < s then Narrowing else if p' > p || s' > s then Widening else WidthSame
  }

  function CompareTypes(from: SqlType, to: SqlType): WidthChange {
    var f, t := FamilyOf(from), FamilyOf(to);
    if f.Integer? then
      if !t.Integer? then WidthUnknown
      else if t.rank < f.rank then Narrowing
      else if t.rank > f.rank then Widening
      else WidthSame
    else if IsCharacter(f) && IsCharacter(t) then CompareLimits(CharLimit(f, from), CharLimit(t, to))
    else if f.Numeric? && t.Numeric? then CompareNumeric(NumericMods(from), NumericMods(to))
    else if f.Timestamptz? && t.DateFamily? then Narrowing
    else if f.DateFamily? && t.Timestamptz? then Widening
    else if f == t && from.mods == to.mods then WidthSame
    else WidthUnknown
  }

  // ---------------------------------------------------------------- values

  /** A decimal is `unscaled` over ten to the `scale`; a moment is a day and a time within it. */
  datatype SqlValue =
    | IntegerValue(n: int)
    | TextValue(s: string)
    | DecimalValue(unscaled: int, scale: nat)
    | MomentValue(day: int, micros: nat)

  function Pow10(n: nat): (r: int)
    ensures r >= 1
  {
    if n == 0 then 1 else 10 * Pow10(n - 1)
  }

  /** `k` over ten to the `to` is the same number as `u` over ten to the `from`. */
  ghost predicate Rescaled(u: int, from: nat, to: nat, k: int) { u * Pow10(to) == k * Pow10(from) }

  ghost predicate FitsDigits(u: int, e: nat, precision: nat, scale: nat) {
    exists k :: Rescaled(u, e, scale, k) && -Pow10(precision) < k < Pow10(precision)
  }

  function NameOf(t: SqlType): string { ToLower(t.name) }

  predicate IsNumeric(t: SqlType) { NameOf(t) == "numeric" }

  /** Digits after the point: a modifier of its own, or none. */
  function ScaleOf(t: SqlType): int { if |t.mods| < 2 then 0 else t.mods[1] }

  /** Modifiers PostgreSQL accepts, with the scale within the precision. */
  predicate ValidMods(t: SqlType) {
    && (NameOf(t) == "varchar" && t.mods != [] ==> |t.mods| == 1 && t.mods[0] >= 1)
    && (NameOf(t) == "numeric" && t.mods != [] ==> t.mods[0] >= 1 && 0 <= ScaleOf(t) <= t.mods[0])
  }

  /**
   Whether a value of the type can be `v`, by the type's name. Types outside the rule tables hold
   nothing here.
   */
  ghost predicate Holds(t: SqlType, v: SqlValue)
    requires ValidMods(t)
  {
    var name := NameOf(t);
    if name == "int2" then v.IntegerValue? && -32768 <= v.n <= 32767
    else if name == "int4" then v.IntegerValue? && -2147483648 <= v.n <= 2147483647
    else if name == "int8" then v.IntegerValue? && -9223372036854775808 <= v.n <= 9223372036854775807
    else if name == "text" then v.TextValue?
    else if name == "varchar" then v.TextValue? && (t.mods == [] || |v.s| <= t.mods[0])
    else if name == "numeric" then
      v.DecimalValue? && (t.mods == [] || FitsDigits(v.unscaled, v.scale, t.mods[0], ScaleOf(t)))
    else if name == "timestamptz" then v.MomentValue?
    else if name == "date" then v.MomentValue? && v.micros == 0
    else false
  }

  ghost predicate Included(from: SqlType, to: SqlType)
    requires ValidMods(from) && ValidMods(to)
  {
    forall v :: Holds(from, v) ==> Holds(to, v)
  }

  // ---------------------------------------------------------------- powers of ten

  lemma {:induction false} Pow10Add(a: nat, b: nat)
    ensures Pow10(a + b) == Pow10(a) * Pow10(b)
  {
    if a > 0 {
      Pow10Add(a - 1, b);
      assert Pow10(a + b) == 10 * (Pow10(a - 1) * Pow10(b));
    }
  }

  lemma {:induction false} Pow10Monotone(a: nat, b: nat)
    requires a <= b
    ensures Pow10(a) <= Pow10(b)
    ensures a < b ==> 10 * Pow10(a) <= Pow10(b)
  {
    if a < b {
      Pow10Monotone(a, b - 1);
    }
  }

  lemma MulMonotone(a: int, b: int, c: int)
    requires a <= b && c >= 0
    ensures a * c <= b * c
  {
    assert (b - a) * c >= 0;
  }

  lemma NextTimes(a: int, c: int)
    ensures (a + 1) * c == a * c + c
  {
  }

  lemma TimesKeepsOrder(a: int, b: int, c: int)
    requires c >= 1
    ensures a < b ==> a * c < b * c
  {
    if a < b {
      NextTimes(a, c);
      MulMonotone(a + 1, b, c);
    }
  }

  lemma CancelPositive(a: int, b: int, c: int)
    requires c >= 1 && a * c == b * c
    ensures a == b
  {
    TimesKeepsOrder(a, b, c);
    TimesKeepsOrder(b, a, c);
  }

  /** Rescaling to more places multiplies; there is only one way to do it. */
  lemma RescaleUp(u: int, from: nat, to: nat, k: int)
    requires from <= to
    ensures Rescaled(u, from, to, k) <==> k == u * Pow10(to - from)
  {
    Pow10Add(to - from, from);
    assert u * Pow10(to) == (u * Pow10(to - from)) * Pow10(from);
    if Rescaled(u, from, to, k) {
      CancelPositive(k, u * Pow10(to - from), Pow10(from));
    }
  }

  lemma ScaleBetween(k: int, top: int, step: int)
    requires -top < k < top && step >= 1
    ensures -(top * step) < k * step < top * step
  {
    MulMonotone(k, top - 1, step);
    MulMonotone(1 - top, k, step);
    assert (top - 1) * step == top * step - step;
    assert (1 - top) * step == step - top * step;
  }

  lemma ScalesUp(k: int, d: nat, p: nat, p': nat)
    requires -Pow10(p) < k < Pow10(p) && p + d <= p'
    ensures -Pow10(p') < k * Pow10(d) < Pow10(p')
  {
    ScaleBetween(k, Pow10(p), Pow10(d));
    Pow10Add(p, d);
    Pow10Monotone(p + d, p');
  }

  lemma BelowLargest(p: nat)
    requires p >= 1
    ensures Pow10(p - 1) <= Pow10(p) - 1
  {
  }

  lemma ProductAtLeast(p: nat, d: nat, p': nat)
    requires p' <= p + d
    ensures Pow10(p) * Pow10(d) >= Pow10(p')
  {
    Pow10Add(p, d);
    Pow10Monotone(p', p + d);
  }

  lemma LargerOverflows(low: int, top: int, step: nat, bound: int)
    requires low <= top && low * step >= bound
    ensures top * step >= bound
  {
    MulMonotone(low, top, step);
  }

  /** The largest number of `p` digits, moved `d` places, overflows any fewer than `p + d` digits. */
  lemma LargestOverflows(p: nat, d: nat, p': nat, top: int)
    requires p >= 1 && p' < p + d && top == Pow10(p) - 1
    ensures top * Pow10(d) >= Pow10(p')
  {
    BelowLargest(p);
    ProductAtLeast(p - 1, d, p');
    LargerOverflows(Pow10(p - 1), top, Pow10(d), Pow10(p'));
  }

  lemma Regroup(a: int, b: int, c: int)
    ensures (a * b) * c == a * (b * c) == (a * c) * b
  {
  }

  // ---------------------------------------------------------------- numeric sets

  lemma DigitsIncluded(p: nat, s: nat, p': nat, s': nat, u: int, e: nat)
    requires FitsDigits(u, e, p, s) && s <= s' && p + (s' - s) <= p'
    ensures FitsDigits(u, e, p', s')
  {
    var k :| Rescaled(u, e, s, k) && -Pow10(p) < k < Pow10(p);
    var d := s' - s;
    var k' := k * Pow10(d);
    Pow10Add(s, d);
    Regroup(u, Pow10(s), Pow10(d));
    Regroup(k, Pow10(e), Pow10(d));
    assert Rescaled(u, e, s', k');
    ScalesUp(k, d, p, p');
  }

  lemma LargestFits(p: nat, s: nat)
    requires p >= 1
    ensures FitsDigits(Pow10(p) - 1, s, p, s)
  {
    assert Rescaled(Pow10(p) - 1, s, s, Pow10(p) - 1);
  }

  lemma LargestLost(p: nat, s: nat, p': nat, s': nat)
    requires p >= 1 && s <= s' && p' < p + (s' - s)
    ensures !FitsDigits(Pow10(p) - 1, s, p', s')
  {
    var u := Pow10(p) - 1;
    LargestOverflows(p, s' - s, p', u);
    forall k ensures Rescaled(u, s, s', k) ==> k >= Pow10(p') {
      RescaleUp(u, s, s', k);
    }
  }

  /** The smallest step of a finer scale has no counterpart in a coarser one. */
  lemma StepLost(s: nat, p': nat, s': nat)
    requires s' < s
    ensures !FitsDigits(1, s, p', s')
  {
    var gap := Pow10(s - s');
    Pow10Add(s - s', s');
    Pow10Monotone(0, s - s');
    forall k ensures !Rescaled(1, s, s', k) {
      if Rescaled(1, s, s', k) {
        Regroup(k, gap, Pow10(s'));
        CancelPositive(1, k * gap, Pow10(s'));
        if k >= 1 {
          MulMonotone(1, k, gap);
        } else {
          MulMonotone(k, 0, gap);
        }
      }
    }
  }

  lemma StepFits(p: nat, s: nat)
    requires p >= 1
    ensures FitsDigits(1, s, p, s)
  {
    assert Rescaled(1, s, s, 1);
    Pow10Monotone(0, p);
  }

  // ---------------------------------------------------------------- names and families

  predicate IsInteger(t: SqlType) { NameOf(t) == "int2" || NameOf(t) == "int4" || NameOf(t) == "int8" }

  predicate IsCharacterType(t: SqlType) { NameOf(t) == "text" || NameOf(t) == "varchar" }

  lemma FamilyByName(t: SqlType)
    ensures FamilyOf(t).Integer? <==> IsInteger(t)
    ensures IsCharacter(FamilyOf(t)) <==> IsCharacterType(t)
    ensures FamilyOf(t).Numeric? <==> IsNumeric(t)
    ensures FamilyOf(t).Timestamptz? <==> NameOf(t) == "timestamptz"
    ensures FamilyOf(t).DateFamily? <==> NameOf(t) == "date"
  {
  }

  lemma SameFamilySameName(a: SqlType, b: SqlType)
    ensures FamilyOf(a) == FamilyOf(b) <==> NameOf(a) == NameOf(b)
  {
  }

  /** What the four enumerated conversions and their inverses relate. */
  predicate Comparable(from: SqlType, to: SqlType) {
    || (IsInteger(from) && IsInteger(to))
    || (IsCharacterType(from) && IsCharacterType(to))
    || (IsNumeric(from) && IsNumeric(to))
    || (NameOf(from) == "timestamptz" && NameOf(to) == "date")
    || (NameOf(from) == "date" && NameOf(to) == "timestamptz")
  }

  /** Nothing outside the enumerated conversions is judged, except that a type is itself. */
  lemma UnknownExactly(from: SqlType, to: SqlType)
    ensures CompareTypes(from, to) == WidthUnknown <==>
            !Comparable(from, to) && !(NameOf(from) == NameOf(to) && from.mods == to.mods)
  {
    FamilyByName(from);
    FamilyByName(to);
    SameFamilySameName(from, to);
  }

  // ---------------------------------------------------------------- inclusion, kind by kind

  /** The bytes an integer type is stored in, and so the values it holds. */
  function Bytes(t: SqlType): nat {
    if NameOf(t) == "int2" then 2 else if NameOf(t) == "int4" then 4 else 8
  }

  function Largest(t: SqlType): int {
    if NameOf(t) == "int2" then 32767 else if NameOf(t) == "int4" then 2147483647 else 9223372036854775807
  }

  lemma IntegerInclusion(from: SqlType, to: SqlType)
    requires ValidMods(from) && ValidMods(to) && IsInteger(from) && IsInteger(to)
    ensures Included(from, to) <==> Bytes(from) <= Bytes(to)
    ensures Bytes(from) > Bytes(to) ==> Lost(from, to, IntegerValue(Largest(from)))
  {
    assert Holds(from, IntegerValue(Largest(from)));
  }

  lemma IntegerVerdict(from: SqlType, to: SqlType)
    requires IsInteger(from) && IsInteger(to)
    ensures CompareTypes(from, to) ==
            if Bytes(to) < Bytes(from) then Narrowing else if Bytes(to) > Bytes(from) then Widening else WidthSame
  {
  }

  /** Held by one type and not by the other. */
  ghost predicate Lost(from: SqlType, to: SqlType, v: SqlValue)
    requires ValidMods(from) && ValidMods(to)
  {
    Holds(from, v) && !Holds(to, v)
  }

  predicate BoundedText(t: SqlType) { NameOf(t) == "varchar" && t.mods != [] }

  lemma TextInclusion(from: SqlType, to: SqlType)
    requires ValidMods(from) && ValidMods(to) && IsCharacterType(from) && IsCharacterType(to)
    ensures Included(from, to) <==> BoundedText(to) ==> BoundedText(from) && from.mods[0] <= to.mods[0]
    ensures !Included(from, to) ==> exists v :: Lost(from, to, v)
  {
    if BoundedText(to) {
      var long := seq(to.mods[0] + 1, i => 'x');
      assert Holds(from, TextValue(long)) <==> !BoundedText(from) || to.mods[0] < from.mods[0];
      assert !Holds(to, TextValue(long));
      assert Lost(from, to, TextValue(long)) <==> Holds(from, TextValue(long));
    }
  }

  lemma TextVerdict(from: SqlType, to: SqlType)
    requires ValidMods(from) && ValidMods(to) && IsCharacterType(from) && IsCharacterType(to)
    ensures CompareTypes(from, to) ==
            if BoundedText(from) && BoundedText(to) then
              (if to.mods[0] < from.mods[0] then Narrowing else if to.mods[0] > from.mods[0] then Widening else WidthSame)
            else if BoundedText(to) then Narrowing
            else if BoundedText(from) then Widening
            else WidthSame
  {
  }

  /** The target has at least as many digits before the point. */
  predicate KeepsIntegralDigits(from: SqlType, to: SqlType) {
    from.mods != [] && to.mods != [] ==> from.mods[0] - ScaleOf(from) <= to.mods[0] - ScaleOf(to)
  }

  predicate KeepsPlaces(from: SqlType, to: SqlType) {
    to.mods != [] ==> from.mods != [] && ScaleOf(from) <= ScaleOf(to)
  }

  lemma NumericHolds(t: SqlType, u: int, e: nat)
    requires ValidMods(t) && IsNumeric(t)
    ensures Holds(t, DecimalValue(u, e)) <==> t.mods == [] || FitsDigits(u, e, t.mods[0], ScaleOf(t))
  {
  }

  /** Fewer places after the point, or fewer digits before it, and some number does not survive. */
  lemma NumericLost(from: SqlType, to: SqlType) returns (v: SqlValue)
    requires ValidMods(from) && ValidMods(to) && IsNumeric(from) && IsNumeric(to)
    requires !(KeepsPlaces(from, to) && KeepsIntegralDigits(from, to))
    ensures Lost(from, to, v)
  {
    var p', s' := to.mods[0], ScaleOf(to);
    if from.mods == [] {
      v := DecimalValue(1, s' + 1);
      StepLost(s' + 1, p', s');
    } else if s' < ScaleOf(from) {
      v := DecimalValue(1, ScaleOf(from));
      StepFits(from.mods[0], ScaleOf(from));
      StepLost(ScaleOf(from), p', s');
    } else {
      v := DecimalValue(Pow10(from.mods[0]) - 1, ScaleOf(from));
      LargestFits(from.mods[0], ScaleOf(from));
      LargestLost(from.mods[0], ScaleOf(from), p', s');
    }
    NumericHolds(from, v.unscaled, v.scale);
    NumericHolds(to, v.unscaled, v.scale);
  }

  lemma NumericInclusion(from: SqlType, to: SqlType)
    requires ValidMods(from) && ValidMods(to) && IsNumeric(from) && IsNumeric(to)
    ensures Included(from, to) <==> KeepsPlaces(from, to) && KeepsIntegralDigits(from, to)
  {
    if !(KeepsPlaces(from, to) && KeepsIntegralDigits(from, to)) {
      var v := NumericLost(from, to);
    } else {
      forall v | Holds(from, v) ensures Holds(to, v) {
        NumericHolds(from, v.unscaled, v.scale);
        NumericHolds(to, v.unscaled, v.scale);
        if to.mods != [] {
          DigitsIncluded(from.mods[0], ScaleOf(from), to.mods[0], ScaleOf(to), v.unscaled, v.scale);
        }
      }
    }
  }

  lemma NumericVerdict(from: SqlType, to: SqlType)
    requires ValidMods(from) && ValidMods(to) && IsNumeric(from) && IsNumeric(to)
    ensures CompareTypes(from, to) == Narrowing <==>
            to.mods != [] && (from.mods == [] || to.mods[0] < from.mods[0] || ScaleOf(to) < ScaleOf(from))
    ensures CompareTypes(from, to) == WidthSame <==>
            if from.mods == [] || to.mods == [] then from.mods == to.mods
            else to.mods[0] == from.mods[0] && ScaleOf(to) == ScaleOf(from)
    ensures CompareTypes(from, to) != WidthUnknown
  {
  }

  lemma MomentInclusion(from: SqlType, to: SqlType)
    requires ValidMods(from) && ValidMods(to) && NameOf(from) == "timestamptz" && NameOf(to) == "date"
    ensures Included(to, from) && Lost(from, to, MomentValue(0, 1))
    ensures CompareTypes(from, to) == Narrowing && CompareTypes(to, from) == Widening
  {
  }

  // ---------------------------------------------------------------- what a verdict means

  /** A narrowing verdict always has a value to show for it. */
  lemma NarrowingLosesValue(from: SqlType, to: SqlType)
    requires ValidMods(from) && ValidMods(to)
    requires CompareTypes(from, to) == Narrowing
    ensures exists v :: Holds(from, v) && !Holds(to, v)
  {
    UnknownExactly(from, to);
    if IsInteger(from) && IsInteger(to) {
      IntegerVerdict(from, to);
      IntegerInclusion(from, to);
    } else if IsCharacterType(from) && IsCharacterType(to) {
      TextVerdict(from, to);
      TextInclusion(from, to);
    } else if IsNumeric(from) && IsNumeric(to) {
      NumericVerdict(from, to);
      var v := NumericLost(from, to);
    } else if NameOf(from) == "timestamptz" && NameOf(to) == "date" {
      MomentInclusion(from, to);
    } else if NameOf(from) == "date" && NameOf(to) == "timestamptz" {
      MomentInclusion(to, from);
    } else {
      ItselfIsSame(from, to);
    }
  }

  lemma ItselfIsSame(from: SqlType, to: SqlType)
    requires NameOf(from) == NameOf(to) && from.mods == to.mods
    ensures CompareTypes(from, to) == WidthSame
  {
  }

  /**
   A widening verdict keeps every value, except that for numeric it compares precision and scale
   and not the digits before the point: there it keeps every value exactly when those do not shrink.
   */
  lemma WideningKeepsExactly(from: SqlType, to: SqlType)
    requires ValidMods(from) && ValidMods(to)
    requires CompareTypes(from, to) == Widening
    ensures Included(from, to) <==> (IsNumeric(from) ==> KeepsIntegralDigits(from, to))
  {
    UnknownExactly(from, to);
    if IsInteger(from) && IsInteger(to) {
      IntegerVerdict(from, to);
      IntegerInclusion(from, to);
    } else if IsCharacterType(from) && IsCharacterType(to) {
      TextVerdict(from, to);
      TextInclusion(from, to);
    } else if IsNumeric(from) && IsNumeric(to) {
      NumericVerdict(from, to);
      NumericInclusion(from, to);
    } else if NameOf(from) == "timestamptz" && NameOf(to) == "date" {
      MomentInclusion(from, to);
    } else if NameOf(from) == "date" && NameOf(to) == "timestamptz" {
      MomentInclusion(to, from);
    } else {
      ItselfIsSame(from, to);
    }
  }

  /**
   Conversely, among the types the table relates, strictly more values is judged widening, strictly
   fewer narrowing, and the same values the same: no such conversion is left unjudged or misjudged.
   */
  lemma InclusionIsJudged(from: SqlType, to: SqlType)
    requires ValidMods(from) && ValidMods(to) && Comparable(from, to)
    ensures Included(from, to) && !Included(to, from) ==> CompareTypes(from, to) == Widening
    ensures Included(to, from) && !Included(from, to) ==> CompareTypes(from, to) == Narrowing
    ensures Included(from, to) && Included(to, from) ==> CompareTypes(from, to) == WidthSame
  {
    if IsInteger(from) {
      IntegerVerdict(from, to);
      IntegerInclusion(from, to);
      IntegerInclusion(to, from);
    } else if IsCharacterType(from) {
      TextVerdict(from, to);
      TextInclusion(from, to);
      TextInclusion(to, from);
    } else if IsNumeric(from) {
      NumericVerdict(from, to);
      NumericInclusion(from, to);
      NumericInclusion(to, from);
    } else if NameOf(from) == "timestamptz" {
      MomentInclusion(from, to);
    } else {
      MomentInclusion(to, from);
    }
  }

  /** The widening that loses values, in the small: numeric(10,2) to numeric(10,4). */
  lemma WideningCanLose()
    ensures var from, to := SqlType("numeric", [10, 2]), SqlType("numeric", [10, 4]);
      CompareTypes(from, to) == Widening && ValidMods(from) && ValidMods(to) && !Included(from, to)
  {
    var from, to := SqlType("numeric", [10, 2]), SqlType("numeric", [10, 4]);
    assert ToLower("numeric") == "numeric";
    WideningKeepsExactly(from, to);
  }

  /** Types called the same hold the same values. */
  lemma SameHoldsSame(from: SqlType, to: SqlType)
    requires ValidMods(from) && ValidMods(to)
    requires CompareTypes(from, to) == WidthSame
    ensures forall v :: Holds(from, v) <==> Holds(to, v)
  {
  }

  // ---------------------------------------------------------------- the verdicts as an order

  /** Widening is a strict partial order. */
  lemma WideningIsStrictOrder(a: SqlType, b: SqlType, c: SqlType)
    ensures CompareTypes(a, a) != Widening
    ensures CompareTypes(a, b) == Widening && CompareTypes(b, c) == Widening ==> CompareTypes(a, c) == Widening
  {
    if CompareTypes(a, b) == Widening && CompareTypes(b, c) == Widening {
      assert FamilyOf(a).Numeric? ==> FamilyOf(b).Numeric? && FamilyOf(c).Numeric?;
      assert FamilyOf(a).Integer? ==> FamilyOf(b).Integer? && FamilyOf(c).Integer?;
    }
  }

  /** One gains digits where the other gains places: neither direction is a widening. */
  predicate Crossing(a: SqlType, b: SqlType) {
    && FamilyOf(a).Numeric? && FamilyOf(b).Numeric?
    && match (NumericMods(a), NumericMods(b))
       case (Digits(p, s), Digits(p', s')) => (p < p' && s' < s) || (p' < p && s < s')
       case _ => false
  }

  /** Undoing a widening narrows; undoing a narrowing widens, unless the two numeric types cross. */
  lemma WideningReversesNarrowing(a: SqlType, b: SqlType)
    ensures CompareTypes(a, b) == Widening ==> CompareTypes(b, a) == Narrowing
    ensures CompareTypes(a, b) == Narrowing ==>
            CompareTypes(b, a) == (if Crossing(a, b) then Narrowing else Widening)
  {
  }

  /** "Same" is an equivalence. */
  lemma SameIsEquivalence(a: SqlType, b: SqlType, c: SqlType)
    ensures CompareTypes(a, a) == WidthSame
    ensures CompareTypes(a, b) == WidthSame ==> CompareTypes(b, a) == WidthSame
    ensures CompareTypes(a, b) == WidthSame && CompareTypes(b, c) == WidthSame ==> CompareTypes(a, c) == WidthSame
  {
  }
}
