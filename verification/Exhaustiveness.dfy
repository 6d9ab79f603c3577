/** Match exhaustiveness (src/check/coverage.rs, src/check/patterns.rs:6-129, 206-393,
    433-681): what patterns are recorded to cover, and what a match accepted as exhaustive does to
    the values of its scrutinee.
 */
module Exhaustiveness {
  // ------------------------------------------------------------------ types, values and patterns

  datatype Ty =
    | Bool | Number | Tuple(members: seq<Ty>) | Enum(id: nat) | Struct(id: nat) | Reference(target: Ty) | Alias(of: Ty)

  /** The declarations: the variants of each enum, and the field types of each variant and struct. */
  datatype Program = Program(
    variants: map<nat, set<nat>>, variantFields: map<nat, seq<Ty>>, structFields: map<nat, seq<Ty>>)

  datatype Value =
    | BoolValue(b: bool) | NumberValue(n: int) | TupleValue(members: seq<Value>)
    | VariantValue(variant: nat, fields: seq<Value>) | StructValue(id: nat, fields: seq<Value>)
    | ReferenceValue(target: Value)

  datatype Pattern =
    | Wildcard                                        // `_` or a binding
    | True | False | NumberPattern(n: int)
    | TuplePattern(elements: seq<Pattern>)
    | DereferencePattern(inner: Pattern)
    | VariantPattern(variant: nat, elements: seq<Pattern>)              // positional or without fields
    // the fields named, by position, with their patterns, and whether `..` is given
    | VariantRecord(variant: nat, fields: seq<nat>, elements: seq<Pattern>, rest: bool)
    | StructRecord(id: nat, fields: seq<nat>, elements: seq<Pattern>, rest: bool)
    | Alternatives(atoms: seq<Pattern>)

  function Strip(t: Ty): Ty {
    if t.Alias? then Strip(t.of) else t
  }

  ghost predicate HasType(v: Value, t: Ty, p: Program)
    decreases v, t, 0
  {
    match t
    case Bool => v.BoolValue?
    case Number => v.NumberValue?
    case Tuple(ts) => v.TupleValue? && HaveTypes(v.members, ts, p)
    case Enum(id) =>
      && v.VariantValue? && id in p.variants && v.variant in p.variants[id] && v.variant in p.variantFields
      && HaveTypes(v.fields, p.variantFields[v.variant], p)
    case Struct(id) =>
      v.StructValue? && v.id == id && id in p.structFields && HaveTypes(v.fields, p.structFields[id], p)
    case Reference(target) => v.ReferenceValue? && HasType(v.target, target, p)
    case Alias(of) => HasType(v, of, p)
  }

  ghost predicate HaveTypes(vs: seq<Value>, ts: seq<Ty>, p: Program)
    decreases vs, 0, 1
  {
    |vs| == |ts| && forall i :: 0 <= i < |vs| ==> HasType(vs[i], ts[i], p)
  }

  ghost predicate Matches(p: Pattern, v: Value)
    decreases p, 0
  {
    match p
    case Wildcard => true
    case True => v == BoolValue(true)
    case False => v == BoolValue(false)
    case NumberPattern(n) => v == NumberValue(n)
    case TuplePattern(ps) => v.TupleValue? && MatchAll(ps, v.members)
    case DereferencePattern(inner) => v.ReferenceValue? && Matches(inner, v.target)
    case VariantPattern(variant, ps) => v.VariantValue? && v.variant == variant && MatchAll(ps, v.fields)
    case VariantRecord(variant, fs, ps, _) => v.VariantValue? && v.variant == variant && MatchFields(fs, ps, v.fields)
    case StructRecord(id, fs, ps, _) => v.StructValue? && v.id == id && MatchFields(fs, ps, v.fields)
    case Alternatives(ps) => exists q :: q in ps && Matches(q, v)
  }

  ghost predicate MatchAll(ps: seq<Pattern>, vs: seq<Value>)
    decreases ps, 1
  {
    |ps| == |vs| && forall i :: 0 <= i < |ps| ==> Matches(ps[i], vs[i])
  }

  ghost predicate MatchFields(fs: seq<nat>, ps: seq<Pattern>, vs: seq<Value>)
    decreases ps, 1
  {
    |fs| == |ps| && forall i :: 0 <= i < |ps| ==> fs[i] < |vs| && Matches(ps[i], vs[fs[i]])
  }

  // ------------------------------------------------------------------ coverage

  datatype Coverage =
    | Uncovered | Catchall | Variants(variants: set<nat>) | Bools(values: set<bool>)
    | Dereferenced(inner: Coverage) | Other

  /** `Coverage::union`. */
  function Union(a: Coverage, b: Coverage): Coverage {
    if a.Uncovered? then b
    else if b.Uncovered? then a
    else if a.Catchall? || b.Catchall? then Catchall
    else if a.Variants? && b.Variants? then Variants(a.variants + b.variants)
    else if a.Bools? && b.Bools? then Bools(a.values + b.values)
    else if a.Dereferenced? && b.Dereferenced? then Dereferenced(Union(a.inner, b.inner))
    else Other
  }

  predicate IsCatchall(c: Coverage) {
    c.Catchall? || (c.Dereferenced? && IsCatchall(c.inner))
  }

  /** The values a coverage stands for. */
  ghost predicate Covers(c: Coverage, v: Value) {
    match c
    case Catchall => true
    case Variants(s) => v.VariantValue? && v.variant in s
    case Bools(s) => v.BoolValue? && v.b in s
    case Dereferenced(inner) => v.ReferenceValue? && Covers(inner, v.target)
    case _ => false
  }

  /** A coverage of the shape patterns on the type `t` have. */
  ghost predicate Fits(c: Coverage, t: Ty, p: Program) {
    match c
    case Variants(s) => Strip(t).Enum? && Strip(t).id in p.variants && s <= p.variants[Strip(t).id]
    case Bools(_) => Strip(t) == Bool
    case Dereferenced(inner) => Strip(t).Reference? && Fits(inner, Strip(t).target, p)
    case _ => true
  }

  /** Union covers no more than its two sides. */
  lemma {:induction false} UnionCovers(a: Coverage, b: Coverage, v: Value)
    requires Covers(Union(a, b), v)
    ensures Covers(a, v) || Covers(b, v)
  {
    if a.Dereferenced? && b.Dereferenced? {
      UnionCovers(a.inner, b.inner, v.target);
    }
  }

  lemma {:induction false} UnionFits(a: Coverage, b: Coverage, t: Ty, p: Program)
    requires Fits(a, t, p) && Fits(b, t, p)
    ensures Fits(Union(a, b), t, p)
  {
    if a.Dereferenced? && b.Dereferenced? {
      UnionFits(a.inner, b.inner, Strip(t).target, p);
    }
  }

  lemma {:induction false} StripTyped(v: Value, t: Ty, p: Program)
    requires HasType(v, t, p)
    ensures HasType(v, Strip(t), p)
    decreases t
  {
    if t.Alias? {
      StripTyped(v, t.of, p);
    }
  }

  lemma {:induction false} CatchallCovers(c: Coverage, t: Ty, v: Value, p: Program)
    requires IsCatchall(c) && Fits(c, t, p) && HasType(v, t, p)
    ensures Covers(c, v)
  {
    StripTyped(v, t, p);
    if c.Dereferenced? {
      CatchallCovers(c.inner, Strip(t).target, v.target, p);
    }
  }

  // ------------------------------------------------------------------ checking a pattern

  /** `check_pattern`: what a pattern is recorded to cover. */
  function Check(q: Pattern): Coverage
    decreases q, 0
  {
    match q
    case Wildcard => Catchall
    case True => Bools({true})
    case False => Bools({false})
    case NumberPattern(_) => Other
    case TuplePattern(ps) => if AllCatchall(ps) then Catchall else Other
    case DereferencePattern(inner) => Dereferenced(Check(inner))
    case VariantPattern(variant, ps) => if AllCatchall(ps) then Variants({variant}) else Uncovered
    case VariantRecord(variant, _, ps, rest) => if rest || AllCatchall(ps) then Variants({variant}) else Uncovered
    case StructRecord(_, _, ps, rest) => if rest || AllCatchall(ps) then Catchall else Other
    case Alternatives(ps) => UnionAll(ps)
  }

  predicate AllCatchall(ps: seq<Pattern>)
    decreases ps, 1
  {
    forall q :: q in ps ==> IsCatchall(Check(q))
  }

  function UnionAll(ps: seq<Pattern>): Coverage
    decreases ps, 1
  {
    if ps == [] then Uncovered else Union(UnionAll(ps[..|ps| - 1]), Check(ps[|ps| - 1]))
  }

  /** Patterns that check against a type without a diagnostic. */
  ghost predicate WellTyped(q: Pattern, t: Ty, p: Program)
    decreases q, 0
  {
    match q
    case Wildcard => true
    case True => Strip(t) == Bool
    case False => Strip(t) == Bool
    case NumberPattern(_) => Strip(t) == Number
    case TuplePattern(ps) => t.Tuple? && AllTyped(ps, t.members, p)
    case DereferencePattern(inner) => Strip(t).Reference? && WellTyped(inner, Strip(t).target, p)
    case VariantPattern(variant, ps) => OfEnum(variant, t, p) && AllTyped(ps, p.variantFields[variant], p)
    case VariantRecord(variant, fs, ps, rest) =>
      OfEnum(variant, t, p) && RecordTyped(fs, ps, rest, p.variantFields[variant], p)
    case StructRecord(id, fs, ps, rest) =>
      Strip(t) == Struct(id) && id in p.structFields && RecordTyped(fs, ps, rest, p.structFields[id], p)
    case Alternatives(ps) => forall a :: a in ps ==> WellTyped(a, t, p)
  }

  ghost predicate OfEnum(variant: nat, t: Ty, p: Program) {
    && Strip(t).Enum? && Strip(t).id in p.variants && variant in p.variants[Strip(t).id]
    && variant in p.variantFields
  }

  ghost predicate AllTyped(ps: seq<Pattern>, ts: seq<Ty>, p: Program)
    decreases ps, 1
  {
    |ps| == |ts| && forall i :: 0 <= i < |ps| ==> WellTyped(ps[i], ts[i], p)
  }

  /** Each field exists and is named once; without `..` every field is named. */
  ghost predicate RecordTyped(fs: seq<nat>, ps: seq<Pattern>, rest: bool, ts: seq<Ty>, p: Program)
    decreases ps, 1
  {
    && |fs| == |ps|
    && (forall i :: 0 <= i < |ps| ==> fs[i] < |ts| && WellTyped(ps[i], ts[fs[i]], p))
    && (forall i, j :: 0 <= i < j < |fs| ==> fs[i] != fs[j])
    && (!rest ==> forall k :: 0 <= k < |ts| ==> k in fs)
  }

  /** Every value of the type matches the pattern. */
  ghost predicate Irrefutable(q: Pattern, t: Ty, p: Program) {
    forall v :: HasType(v, t, p) ==> Matches(q, v)
  }

  /** Each field named matches every value of its own type. */
  ghost predicate FieldsIrrefutable(fs: seq<nat>, ps: seq<Pattern>, ts: seq<Ty>, p: Program) {
    |fs| == |ps| && forall i :: 0 <= i < |ps| ==> fs[i] < |ts| && Irrefutable(ps[i], ts[fs[i]], p)
  }

  /** No record pattern with `..` names a field it could fail on. */
  ghost predicate RestsHarmless(q: Pattern, t: Ty, p: Program)
    requires WellTyped(q, t, p)
    decreases q, 0
  {
    match q
    case TuplePattern(ps) => AllHarmless(ps, t.members, p)
    case DereferencePattern(inner) => RestsHarmless(inner, Strip(t).target, p)
    case VariantPattern(variant, ps) => AllHarmless(ps, p.variantFields[variant], p)
    case VariantRecord(variant, fs, ps, rest) => FieldsHarmless(fs, ps, rest, p.variantFields[variant], p)
    case StructRecord(id, fs, ps, rest) => FieldsHarmless(fs, ps, rest, p.structFields[id], p)
    case Alternatives(ps) => forall a :: a in ps ==> RestsHarmless(a, t, p)
    case _ => true
  }

  ghost predicate AllHarmless(ps: seq<Pattern>, ts: seq<Ty>, p: Program)
    requires AllTyped(ps, ts, p)
    decreases ps, 1
  {
    forall i :: 0 <= i < |ps| ==> RestsHarmless(ps[i], ts[i], p)
  }

  ghost predicate FieldsHarmless(fs: seq<nat>, ps: seq<Pattern>, rest: bool, ts: seq<Ty>, p: Program)
    requires RecordTyped(fs, ps, rest, ts, p)
    decreases ps, 1
  {
    && (rest ==> FieldsIrrefutable(fs, ps, ts, p))
    && forall i :: 0 <= i < |ps| ==> RestsHarmless(ps[i], ts[fs[i]], p)
  }

  // ------------------------------------------------------------------ a pattern covers what it matches

  lemma {:induction false} CheckFits(q: Pattern, t: Ty, p: Program)
    requires WellTyped(q, t, p)
    ensures Fits(Check(q), t, p)
    decreases q, 0
  {
    match q
    case DereferencePattern(inner) => CheckFits(inner, Strip(t).target, p);
    case Alternatives(ps) => UnionAllFits(ps, t, p);
    case _ =>
  }

  lemma {:induction false} UnionAllFits(ps: seq<Pattern>, t: Ty, p: Program)
    requires forall a :: a in ps ==> WellTyped(a, t, p)
    ensures Fits(UnionAll(ps), t, p)
    decreases ps, 1
  {
    if ps != [] {
      CheckFits(ps[|ps| - 1], t, p);
      UnionAllFits(ps[..|ps| - 1], t, p);
      UnionFits(UnionAll(ps[..|ps| - 1]), Check(ps[|ps| - 1]), t, p);
    }
  }

  /** What a pattern is recorded to cover, it matches. */
  lemma {:induction false} CoveredMatches(q: Pattern, t: Ty, v: Value, p: Program)
    requires WellTyped(q, t, p) && RestsHarmless(q, t, p) && HasType(v, t, p) && Covers(Check(q), v)
    ensures Matches(q, v)
    decreases q, 0
  {
    StripTyped(v, t, p);
    match q
    case TuplePattern(ps) => ElementsMatch(ps, t.members, v.members, p);
    case DereferencePattern(inner) => CoveredMatches(inner, Strip(t).target, v.target, p);
    case VariantPattern(variant, ps) => ElementsMatch(ps, p.variantFields[variant], v.fields, p);
    case VariantRecord(variant, fs, ps, rest) => FieldsMatch(fs, ps, rest, p.variantFields[variant], v.fields, p);
    case StructRecord(id, fs, ps, rest) => FieldsMatch(fs, ps, rest, p.structFields[id], v.fields, p);
    case Alternatives(ps) => AlternativeMatches(ps, t, v, p);
    case _ =>
  }

  lemma {:induction false} ElementsMatch(ps: seq<Pattern>, ts: seq<Ty>, vs: seq<Value>, p: Program)
    requires AllTyped(ps, ts, p) && AllCatchall(ps) && HaveTypes(vs, ts, p) && AllHarmless(ps, ts, p)
    ensures MatchAll(ps, vs)
    decreases ps, 1
  {
    forall i | 0 <= i < |ps| ensures Matches(ps[i], vs[i]) {
      CheckFits(ps[i], ts[i], p);
      assert ps[i] in ps;
      CatchallCovers(Check(ps[i]), ts[i], vs[i], p);
      CoveredMatches(ps[i], ts[i], vs[i], p);
    }
  }

  lemma {:induction false} FieldsMatch(
      fs: seq<nat>, ps: seq<Pattern>, rest: bool, ts: seq<Ty>, vs: seq<Value>, p: Program)
    requires RecordTyped(fs, ps, rest, ts, p) && FieldsHarmless(fs, ps, rest, ts, p) && HaveTypes(vs, ts, p)
    requires rest || AllCatchall(ps)
    ensures MatchFields(fs, ps, vs)
    decreases ps, 1
  {
    forall i | 0 <= i < |ps| ensures fs[i] < |vs| && Matches(ps[i], vs[fs[i]]) {
      if !rest {
        CheckFits(ps[i], ts[fs[i]], p);
        assert ps[i] in ps;
        CatchallCovers(Check(ps[i]), ts[fs[i]], vs[fs[i]], p);
        CoveredMatches(ps[i], ts[fs[i]], vs[fs[i]], p);
      }
    }
  }

  lemma {:induction false} AlternativeMatches(ps: seq<Pattern>, t: Ty, v: Value, p: Program)
    requires forall a :: a in ps ==> WellTyped(a, t, p) && RestsHarmless(a, t, p)
    requires HasType(v, t, p) && Covers(UnionAll(ps), v)
    ensures exists a :: a in ps && Matches(a, v)
    decreases ps, 1
  {
    var last := ps[|ps| - 1];
    UnionCovers(UnionAll(ps[..|ps| - 1]), Check(last), v);
    if Covers(Check(last), v) {
      CoveredMatches(last, t, v, p);
    } else {
      AlternativeMatches(ps[..|ps| - 1], t, v, p);
    }
  }

  // ------------------------------------------------------------------ the whole match

  datatype Arm = Arm(pattern: Pattern, guarded: bool)

  /** `coverage_is_exhaustive`. */
  predicate Exhaustive(t: Ty, c: Coverage, p: Program)
    decreases c
  {
    match c
    case Catchall => true
    case Dereferenced(inner) => Strip(t).Reference? && Exhaustive(Strip(t).target, inner, p)
    case Bools(values) => |values| >= 2
    case Variants(s) => t.Enum? && t.id in p.variants && p.variants[t.id] <= s
    case _ => false
  }

  lemma {:induction false} ExhaustiveCovers(t: Ty, c: Coverage, v: Value, p: Program)
    requires Exhaustive(t, c, p) && Fits(c, t, p) && HasType(v, t, p)
    ensures Covers(c, v)
    decreases c
  {
    StripTyped(v, t, p);
    match c
    case Dereferenced(inner) => ExhaustiveCovers(Strip(t).target, inner, v.target, p);
    case Bools(values) => TwoBools(values);
    case _ =>
  }

  lemma TwoBools(s: set<bool>)
    requires |s| >= 2
    ensures true in s && false in s
  {
    BoolsSize(s);
  }

  lemma BoolsSize(s: set<bool>)
    ensures true !in s || false !in s ==> |s| <= 1
  {
    forall x: bool | x in s ensures x in {true, false} {
      if x {
        assert true in {true, false};
      }
    }
    assert s <= {true, false};
    if true !in s {
      assert s <= {false};
      SubsetSize(s, {false});
    } else if false !in s {
      assert s <= {true};
      SubsetSize(s, {true});
    }
  }

  lemma {:induction false} SubsetSize(a: set<bool>, b: set<bool>)
    requires a <= b
    ensures |a| <= |b|
    decreases b
  {
    assert b == a + (b - a);
  }

  /** Some unguarded arm matches the value. */
  ghost predicate Handled(arms: seq<Arm>, v: Value) {
    exists a :: a in arms && !a.guarded && Matches(a.pattern, v)
  }

  /** Every value of the type is matched by an unguarded arm. */
  ghost predicate HandlesAll(arms: seq<Arm>, t: Ty, p: Program) {
    forall v :: HasType(v, t, p) ==> Handled(arms, v)
  }

  ghost predicate ArmsTyped(arms: seq<Arm>, t: Ty, p: Program) {
    forall a :: a in arms ==> WellTyped(a.pattern, t, p)
  }

  ghost predicate ArmsHarmless(arms: seq<Arm>, t: Ty, p: Program)
    requires ArmsTyped(arms, t, p)
  {
    forall a :: a in arms ==> RestsHarmless(a.pattern, t, p)
  }

  /** The coverage accumulated over the unguarded arms. */
  function CoverageOf(arms: seq<Arm>): Coverage {
    if arms == [] then Uncovered
    else
      var (before, last) := (CoverageOf(arms[..|arms| - 1]), arms[|arms| - 1]);
      if last.guarded then before else Union(before, Check(last.pattern))
  }

  lemma {:induction false} ArmsFit(arms: seq<Arm>, t: Ty, p: Program)
    requires ArmsTyped(arms, t, p)
    ensures Fits(CoverageOf(arms), t, p)
  {
    if arms != [] {
      var last := arms[|arms| - 1];
      ArmsFit(arms[..|arms| - 1], t, p);
      CheckFits(last.pattern, t, p);
      UnionFits(CoverageOf(arms[..|arms| - 1]), Check(last.pattern), t, p);
    }
  }

  lemma {:induction false} ArmMatches(arms: seq<Arm>, t: Ty, v: Value, p: Program)
    requires ArmsTyped(arms, t, p) && ArmsHarmless(arms, t, p) && HasType(v, t, p) && Covers(CoverageOf(arms), v)
    ensures Handled(arms, v)
  {
    var last := arms[|arms| - 1];
    var before := arms[..|arms| - 1];
    if !last.guarded {
      UnionCovers(CoverageOf(before), Check(last.pattern), v);
    }
    if !last.guarded && Covers(Check(last.pattern), v) {
      CoveredMatches(last.pattern, t, v, p);
      assert last in arms && Matches(last.pattern, v);
    } else {
      ArmMatches(before, t, v, p);
    }
  }

  /** Exhaustiveness soundness. */
  lemma ArmsHandle(arms: seq<Arm>, t: Ty, p: Program)
    requires ArmsTyped(arms, t, p)
    ensures ArmsHarmless(arms, t, p) && (Exhaustive(t, CoverageOf(arms), p) || IsCatchall(CoverageOf(arms))) ==>
              HandlesAll(arms, t, p)
  {
    ArmsFit(arms, t, p);
    if ArmsHarmless(arms, t, p) && (Exhaustive(t, CoverageOf(arms), p) || IsCatchall(CoverageOf(arms))) {
      forall v | HasType(v, t, p) ensures Handled(arms, v) {
        if IsCatchall(CoverageOf(arms)) {
          CatchallCovers(CoverageOf(arms), t, v, p);
        } else {
          ExhaustiveCovers(t, CoverageOf(arms), v, p);
        }
        ArmMatches(arms, t, v, p);
      }
    }
  }

  // ------------------------------------------------------------------ the missing-coverage diagnostic

  /** What a match is said not to cover. */
  datatype Missing = MissingBools | MissingVariants(variants: set<nat>) | MissingCatchall

  datatype Description = Silent | Reported(missing: Missing)

  /** `describe_missing_coverage`.  Unlike `coverage_is_exhaustive` it does not see that an alias may
      stand for a reference. */
  function Describe(t: Ty, c: Coverage, p: Program): Description
    decreases c
  {
    if c.Dereferenced? then
      if t.Reference? then Describe(t.target, c.inner, p) else Silent
    else if t.Bool? then Reported(MissingBools)
    else if t.Enum? && t.id in p.variants then
      var missing := p.variants[t.id] - if c.Variants? then c.variants else {};
      if missing == {} then Silent else Reported(MissingVariants(missing))
    else Reported(MissingCatchall)
  }

  /** The diagnostic of a whole match: a match without arms gets none. */
  function Diagnosis(arms: seq<Arm>, t: Ty, p: Program): Description {
    if arms == [] || Exhaustive(t, CoverageOf(arms), p) then Silent else Describe(t, CoverageOf(arms), p)
  }

  /** Dereferences are looked through only where the type is a reference and not an alias of one. */
  predicate Plain(t: Ty, c: Coverage) {
    c.Dereferenced? ==> t.Reference? && Plain(t.target, c.inner)
  }

  /** The type the references of the coverage lead to. */
  function Referent(t: Ty, c: Coverage): Ty
    requires Plain(t, c)
  {
    if c.Dereferenced? then Referent(t.target, c.inner) else t
  }

  predicate EmptyEnum(t: Ty, p: Program) {
    t.Enum? && t.id in p.variants && p.variants[t.id] == {}
  }

  /** A match that is not exhaustive draws a diagnostic exactly when no alias hides a reference it
      dereferences, and the type it then looks at is not an enum without variants. */
  lemma {:induction false} DescribeExactly(t: Ty, c: Coverage, p: Program)
    requires !Exhaustive(t, c, p)
    ensures Describe(t, c, p).Silent? <==> !Plain(t, c) || EmptyEnum(Referent(t, c), p)
    decreases c
  {
    if c.Dereferenced? && t.Reference? {
      DescribeExactly(t.target, c.inner, p);
    } else if t.Enum? && t.id in p.variants {
      var all, covered := p.variants[t.id], if c.Variants? then c.variants else {};
      forall x | x in all && all - covered == {} ensures x in covered {
        assert x !in all - covered;
      }
    }
  }

  lemma {:induction false} EmptyReferent(t: Ty, c: Coverage, v: Value, p: Program)
    requires Plain(t, c) && EmptyEnum(Referent(t, c), p)
    ensures !HasType(v, t, p)
    decreases c
  {
    if c.Dereferenced? && HasType(v, t, p) {
      EmptyReferent(t.target, c.inner, v.target, p);
    }
  }

  /** A match with arms and without the diagnostic handles every value, unless an alias hides a
      reference that its patterns dereference. */
  lemma SilenceHandles(arms: seq<Arm>, t: Ty, p: Program)
    requires ArmsTyped(arms, t, p) && ArmsHarmless(arms, t, p) && arms != []
    requires Plain(t, CoverageOf(arms)) && Diagnosis(arms, t, p).Silent?
    ensures HandlesAll(arms, t, p)
  {
    hide RestsHarmless, WellTyped, HasType, Matches, Check;
    ArmsHandle(arms, t, p);
    if !Exhaustive(t, CoverageOf(arms), p) {
      DescribeExactly(t, CoverageOf(arms), p);
      forall v ensures !HasType(v, t, p) {
        EmptyReferent(t, CoverageOf(arms), v, p);
      }
    }
  }

  /** No reference of the type is behind an alias. */
  predicate Unhidden(t: Ty) {
    match t
    case Reference(target) => Unhidden(target)
    case Alias(of) => !Strip(of).Reference?
    case _ => true
  }

  lemma {:induction false} UnhiddenPlain(t: Ty, c: Coverage, p: Program)
    requires Unhidden(t) && Fits(c, t, p)
    ensures Plain(t, c)
    decreases c
  {
    if c.Dereferenced? {
      UnhiddenPlain(t.target, c.inner, p);
    }
  }

  /** What the references of a type lead to. */
  function Peel(t: Ty): Ty {
    match t
    case Reference(target) => Peel(target)
    case Alias(of) => if Strip(of).Reference? then Peel(of) else t
    case _ => t
  }

  /** The pattern behind as many dereferences as the type has references. */
  function Starred(q: Pattern, t: Ty): Pattern {
    match t
    case Reference(target) => DereferencePattern(Starred(q, target))
    case Alias(of) => if Strip(of).Reference? then Starred(q, of) else q
    case _ => q
  }

  function Referenced(v: Value, t: Ty): Value {
    match t
    case Reference(target) => ReferenceValue(Referenced(v, target))
    case Alias(of) => if Strip(of).Reference? then Referenced(v, of) else v
    case _ => v
  }

  lemma {:induction false} StarredMeans(q: Pattern, v: Value, t: Ty, p: Program)
    requires WellTyped(q, Peel(t), p) && RestsHarmless(q, Peel(t), p) && HasType(v, Peel(t), p)
    ensures WellTyped(Starred(q, t), t, p) && RestsHarmless(Starred(q, t), t, p)
    ensures HasType(Referenced(v, t), t, p)
    ensures Matches(Starred(q, t), Referenced(v, t)) <==> Matches(q, v)
    decreases t
  {
    hide WellTyped, RestsHarmless, HasType, Matches;
    match t
    case Reference(target) =>
      StarredMeans(q, v, target, p);
      OneMore(Starred(q, target), Referenced(v, target), target, p);
    case Alias(of) =>
      if Strip(of).Reference? {
        StarredMeans(q, v, of, p);
        StarredShape(q, of);
        ThroughAlias(Starred(q, of), Referenced(v, of), of, p);
      }
    case _ =>
  }

  lemma OneMore(q: Pattern, v: Value, t: Ty, p: Program)
    requires WellTyped(q, t, p) && RestsHarmless(q, t, p) && HasType(v, t, p)
    ensures var (d, r) := (DereferencePattern(q), Reference(t));
            && WellTyped(d, r, p) && RestsHarmless(d, r, p) && HasType(ReferenceValue(v), r, p)
            && (Matches(d, ReferenceValue(v)) <==> Matches(q, v))
  {
    assert Strip(Reference(t)) == Reference(t);
  }

  /** A dereference pattern is typed alike on a type and on an alias of it. */
  lemma ThroughAlias(d: Pattern, v: Value, of: Ty, p: Program)
    requires d.DereferencePattern? && WellTyped(d, of, p) && RestsHarmless(d, of, p) && HasType(v, of, p)
    ensures WellTyped(d, Alias(of), p) && RestsHarmless(d, Alias(of), p) && HasType(v, Alias(of), p)
  {
    assert Strip(Alias(of)) == Strip(of);
  }

  lemma {:induction false} StarredShape(q: Pattern, t: Ty)
    requires Strip(t).Reference?
    ensures Starred(q, t) == Starred(q, Strip(t)) && Starred(q, t).DereferencePattern?
    decreases t
  {
    if t.Alias? {
      StarredShape(q, t.of);
    }
  }

  lemma {:induction false} StarredHidden(q: Pattern, t: Ty, p: Program)
    requires !Unhidden(t)
    ensures !Plain(t, Check(Starred(q, t)))
    decreases t
  {
    match t
    case Reference(target) => StarredHidden(q, target, p);
    case Alias(of) => StarredShape(q, of);
  }

  /** A match with arms, whose record patterns with `..` are harmless, that draws no diagnostic. */
  ghost predicate Quiet(arms: seq<Arm>, t: Ty, p: Program) {
    ArmsTyped(arms, t, p) && ArmsHarmless(arms, t, p) && arms != [] && Diagnosis(arms, t, p).Silent?
  }

  /** Exactly for the types that hide no reference behind an alias does silence mean that every value
      is handled, as soon as what the references lead to has a pattern that can fail. */
  lemma SilenceExactly(t: Ty, p: Program, q: Pattern, v: Value)
    requires WellTyped(q, Peel(t), p) && RestsHarmless(q, Peel(t), p)
    requires HasType(v, Peel(t), p) && !Matches(q, v)
    ensures Unhidden(t) <==>
              forall arms :: Quiet(arms, t, p) ==> HandlesAll(arms, t, p)
  {
    hide RestsHarmless, WellTyped, HasType, Matches, Check;
    if Unhidden(t) {
      forall arms | Quiet(arms, t, p) ensures HandlesAll(arms, t, p) {
        ArmsFit(arms, t, p);
        UnhiddenPlain(t, CoverageOf(arms), p);
        SilenceHandles(arms, t, p);
      }
    } else {
      var arms := [Arm(Starred(q, t), false)];
      StarredMeans(q, v, t, p);
      StarredHidden(q, t, p);
      OneArm(arms[0]);
      if !Exhaustive(t, CoverageOf(arms), p) {
        DescribeExactly(t, CoverageOf(arms), p);
      }
      assert Quiet(arms, t, p);
      assert !Handled(arms, Referenced(v, t));
    }
  }

  lemma OneArm(a: Arm)
    requires !a.guarded
    ensures CoverageOf([a]) == Check(a.pattern)
  {
    assert [a][..0] == [];
  }

  /** With `R` an alias of `&bool`, a match on an `R` with the one arm `*true` draws no diagnostic. */
  lemma AliasCounterexample()
    ensures var (p, t) := (Program(map[], map[], map[]), Alias(Reference(Bool)));
            var arms := [Arm(DereferencePattern(True), false)];
            && ArmsTyped(arms, t, p) && ArmsHarmless(arms, t, p) && Diagnosis(arms, t, p).Silent?
            && HasType(ReferenceValue(BoolValue(false)), t, p) && !Handled(arms, ReferenceValue(BoolValue(false)))
  {
    var p, t := Program(map[], map[], map[]), Alias(Reference(Bool));
    StarredMeans(True, BoolValue(false), t, p);
    StarredHidden(True, t, p);
    OneArm(Arm(Starred(True, t), false));
    assert Starred(True, t) == DereferencePattern(True);
    assert HasType(Referenced(BoolValue(false), t), t, p);
  }

  // ------------------------------------------------------------------ record patterns with a rest

  ghost predicate Inhabited(t: Ty, p: Program) {
    exists v :: HasType(v, t, p)
  }

  lemma {:induction false} SomeFields(ts: seq<Ty>, p: Program) returns (vs: seq<Value>)
    requires AllInhabited(ts, p)
    ensures HaveTypes(vs, ts, p)
  {
    vs := [];
    while |vs| < |ts|
      invariant |vs| <= |ts| && forall i :: 0 <= i < |vs| ==> HasType(vs[i], ts[i], p)
    {
      assert Inhabited(ts[|vs|], p);
      var v :| HasType(v, ts[|vs|], p);
      vs := vs + [v];
    }
  }

  /** Whatever values of their types the fields have, those named match. */
  ghost predicate FieldsAlwaysMatch(fs: seq<nat>, ps: seq<Pattern>, ts: seq<Ty>, p: Program) {
    forall vs :: HaveTypes(vs, ts, p) ==> MatchFields(fs, ps, vs)
  }

  ghost predicate AllInhabited(ts: seq<Ty>, p: Program) {
    forall k :: 0 <= k < |ts| ==> Inhabited(ts[k], p)
  }

  lemma FieldInhabited(vs: seq<Value>, ts: seq<Ty>, k: nat, p: Program)
    requires HaveTypes(vs, ts, p) && k < |ts|
    ensures Inhabited(ts[k], p)
  {
    assert HasType(vs[k], ts[k], p);
  }

  /** The fields named always match exactly when each matches every value of its own type, or when
      some field has no value at all. */
  lemma FieldsExactly(fs: seq<nat>, ps: seq<Pattern>, ts: seq<Ty>, p: Program)
    requires |fs| == |ps| && forall i :: 0 <= i < |fs| ==> fs[i] < |ts|
    ensures FieldsAlwaysMatch(fs, ps, ts, p) <==> FieldsIrrefutable(fs, ps, ts, p) || !AllInhabited(ts, p)
  {
    hide HasType, Matches;
    if FieldsIrrefutable(fs, ps, ts, p) {
      forall vs, i | HaveTypes(vs, ts, p) && 0 <= i < |ps| ensures fs[i] < |vs| && Matches(ps[i], vs[fs[i]]) {
        assert Irrefutable(ps[i], ts[fs[i]], p) && HasType(vs[fs[i]], ts[fs[i]], p);
      }
    }
    if !AllInhabited(ts, p) {
      var k :| 0 <= k < |ts| && !Inhabited(ts[k], p);
      forall vs ensures !HaveTypes(vs, ts, p) {
        if HaveTypes(vs, ts, p) {
          FieldInhabited(vs, ts, k, p);
        }
      }
    } else if FieldsAlwaysMatch(fs, ps, ts, p) {
      var some := SomeFields(ts, p);
      forall i, v | 0 <= i < |ps| && HasType(v, ts[fs[i]], p) ensures Matches(ps[i], v) {
        var vs := some[fs[i] := v];
        assert HaveTypes(vs, ts, p) && MatchFields(fs, ps, vs);
        assert vs[fs[i]] == v;
      }
    }
  }

  /** A match whose only arm is a record pattern with `..` is always taken as exhaustive.  It is
      exactly when every field it names matches each value of that field's type. */
  lemma RestClaim(id: nat, fs: seq<nat>, ps: seq<Pattern>, p: Program)
    requires WellTyped(StructRecord(id, fs, ps, true), Struct(id), p)
    ensures var (arms, ts) := ([Arm(StructRecord(id, fs, ps, true), false)], p.structFields[id]);
            && Exhaustive(Struct(id), CoverageOf(arms), p)
            && (HandlesAll(arms, Struct(id), p) <==>
                  FieldsIrrefutable(fs, ps, ts, p) || !AllInhabited(ts, p))
  {
    var arms, ts := [Arm(StructRecord(id, fs, ps, true), false)], p.structFields[id];
    OneArm(arms[0]);
    FieldsExactly(fs, ps, ts, p);
    if HandlesAll(arms, Struct(id), p) {
      forall vs | HaveTypes(vs, ts, p) ensures MatchFields(fs, ps, vs) {
        var v := StructValue(id, vs);
        assert HasType(v, Struct(id), p) && Handled(arms, v);
      }
    }
    if FieldsAlwaysMatch(fs, ps, ts, p) {
      forall v | HasType(v, Struct(id), p) ensures Handled(arms, v) {
        assert HaveTypes(v.fields, ts, p) && arms[0] in arms;
        assert Matches(arms[0].pattern, v);
      }
    }
  }

  /** The same for a variant: the pattern is taken to cover the whole variant. */
  lemma RestVariantClaim(variant: nat, fs: seq<nat>, ps: seq<Pattern>, t: Ty, p: Program)
    requires WellTyped(VariantRecord(variant, fs, ps, true), t, p)
    ensures var (q, ts) := (VariantRecord(variant, fs, ps, true), p.variantFields[variant]);
            && Check(q) == Variants({variant})
            && ((forall v :: HasType(v, t, p) && v.VariantValue? && v.variant == variant ==> Matches(q, v)) <==>
                  FieldsIrrefutable(fs, ps, ts, p) || !AllInhabited(ts, p))
  {
    var q, ts := VariantRecord(variant, fs, ps, true), p.variantFields[variant];
    FieldsExactly(fs, ps, ts, p);
    if forall v :: HasType(v, t, p) && v.VariantValue? && v.variant == variant ==> Matches(q, v) {
      forall vs | HaveTypes(vs, ts, p) ensures MatchFields(fs, ps, vs) {
        var v := VariantValue(variant, vs);
        TypedStrip(v, t, p);
        assert Matches(q, v);
      }
    }
    if FieldsAlwaysMatch(fs, ps, ts, p) {
      forall v | HasType(v, t, p) && v.VariantValue? && v.variant == variant ensures Matches(q, v) {
        StripTyped(v, t, p);
        assert HaveTypes(v.fields, ts, p);
      }
    }
  }

  lemma {:induction false} TypedStrip(v: Value, t: Ty, p: Program)
    requires HasType(v, Strip(t), p)
    ensures HasType(v, t, p)
    decreases t
  {
    if t.Alias? {
      TypedStrip(v, t.of, p);
    }
  }

  // ------------------------------------------------------------------ deciding that a pattern cannot fail

  predicate NoAlternatives(q: Pattern) {
    match q
    case TuplePattern(ps) => forall a :: a in ps ==> NoAlternatives(a)
    case DereferencePattern(inner) => NoAlternatives(inner)
    case VariantPattern(_, ps) => forall a :: a in ps ==> NoAlternatives(a)
    case VariantRecord(_, _, ps, _) => forall a :: a in ps ==> NoAlternatives(a)
    case StructRecord(_, _, ps, _) => forall a :: a in ps ==> NoAlternatives(a)
    case Alternatives(_) => false
    case _ => true
  }

  /** Read off the pattern: no literal, and a variant only where its enum has no other. */
  predicate Sure(q: Pattern, t: Ty, p: Program)
    requires WellTyped(q, t, p)
    decreases q, 0
  {
    match q
    case Wildcard => true
    case TuplePattern(ps) => AllSure(ps, t.members, p)
    case DereferencePattern(inner) => Sure(inner, Strip(t).target, p)
    case VariantPattern(variant, ps) =>
      p.variants[Strip(t).id] == {variant} && AllSure(ps, p.variantFields[variant], p)
    case VariantRecord(variant, fs, ps, rest) =>
      p.variants[Strip(t).id] == {variant} && FieldsSure(fs, ps, rest, p.variantFields[variant], p)
    case StructRecord(id, fs, ps, rest) => FieldsSure(fs, ps, rest, p.structFields[id], p)
    case _ => false
  }

  predicate AllSure(ps: seq<Pattern>, ts: seq<Ty>, p: Program)
    requires AllTyped(ps, ts, p)
    decreases ps, 1
  {
    forall i | 0 <= i < |ps| :: Sure(ps[i], ts[i], p)
  }

  predicate FieldsSure(fs: seq<nat>, ps: seq<Pattern>, rest: bool, ts: seq<Ty>, p: Program)
    requires RecordTyped(fs, ps, rest, ts, p)
    decreases ps, 1
  {
    forall i | 0 <= i < |ps| :: Sure(ps[i], ts[fs[i]], p)
  }

  /** Every declared field has a value. */
  ghost predicate Peopled(p: Program) {
    && (forall id :: id in p.structFields ==> AllInhabited(p.structFields[id], p))
    && (forall id :: id in p.variantFields ==> AllInhabited(p.variantFields[id], p))
    && (forall id, w :: id in p.variants && w in p.variants[id] ==> w in p.variantFields)
  }

  lemma {:induction false} SureMatches(q: Pattern, t: Ty, p: Program, v: Value)
    requires WellTyped(q, t, p) && Sure(q, t, p) && HasType(v, t, p)
    ensures Matches(q, v)
    decreases q
  {
    StripTyped(v, t, p);
    match q
    case TuplePattern(ps) =>
      forall i | 0 <= i < |ps| ensures Matches(ps[i], v.members[i]) {
        SureMatches(ps[i], t.members[i], p, v.members[i]);
      }
    case DereferencePattern(inner) => SureMatches(inner, Strip(t).target, p, v.target);
    case VariantPattern(variant, ps) =>
      forall i | 0 <= i < |ps| ensures Matches(ps[i], v.fields[i]) {
        SureMatches(ps[i], p.variantFields[variant][i], p, v.fields[i]);
      }
    case VariantRecord(variant, fs, ps, rest) =>
      forall i | 0 <= i < |ps| ensures Matches(ps[i], v.fields[fs[i]]) {
        SureMatches(ps[i], p.variantFields[variant][fs[i]], p, v.fields[fs[i]]);
      }
    case StructRecord(id, fs, ps, rest) =>
      forall i | 0 <= i < |ps| ensures Matches(ps[i], v.fields[fs[i]]) {
        SureMatches(ps[i], p.structFields[id][fs[i]], p, v.fields[fs[i]]);
      }
    case _ =>
  }

  /** A value a pattern fails on, where it is not sure. */
  lemma {:induction false} Refuted(q: Pattern, t: Ty, p: Program) returns (v: Value)
    requires WellTyped(q, t, p) && NoAlternatives(q) && Peopled(p) && Inhabited(t, p) && !Sure(q, t, p)
    ensures HasType(v, t, p) && !Matches(q, v)
    decreases q, 1
  {
    match q
    case True =>
      v := BoolValue(false);
      TypedStrip(v, t, p);
    case False =>
      v := BoolValue(true);
      TypedStrip(v, t, p);
    case NumberPattern(n) =>
      v := NumberValue(n + 1);
      TypedStrip(v, t, p);
    case TuplePattern(ps) =>
      MembersInhabited(t, p);
      var vs := RefutedPart(seq(|ps|, i => i), ps, t.members, p);
      v := TupleValue(vs);
    case DereferencePattern(inner) =>
      TargetInhabited(t, p);
      var target := Refuted(inner, Strip(t).target, p);
      v := ReferenceValue(target);
      TypedStrip(v, t, p);
    case VariantPattern(variant, ps) =>
      v := RefutedVariant(variant, seq(|ps|, i => i), ps, t, p);
      TypedStrip(v, t, p);
    case VariantRecord(variant, fs, ps, rest) =>
      v := RefutedVariant(variant, fs, ps, t, p);
      TypedStrip(v, t, p);
    case StructRecord(id, fs, ps, rest) =>
      var vs := RefutedPart(fs, ps, p.structFields[id], p);
      v := StructValue(id, vs);
      TypedStrip(v, t, p);
  }

  lemma {:induction false} RefutedVariant(variant: nat, fs: seq<nat>, ps: seq<Pattern>, t: Ty, p: Program)
    returns (v: Value)
    requires OfEnum(variant, t, p) && Peopled(p) && |fs| == |ps|
    requires forall i :: 0 <= i < |ps| ==>
               && fs[i] < |p.variantFields[variant]| && WellTyped(ps[i], p.variantFields[variant][fs[i]], p)
               && NoAlternatives(ps[i])
    requires p.variants[Strip(t).id] != {variant}
             || exists i :: 0 <= i < |ps| && !Sure(ps[i], p.variantFields[variant][fs[i]], p)
    ensures HasType(v, Strip(t), p) && v.VariantValue?
    ensures v.variant != variant || exists i :: 0 <= i < |ps| && fs[i] < |v.fields| && !Matches(ps[i], v.fields[fs[i]])
    decreases ps, 1
  {
    if p.variants[Strip(t).id] != {variant} {
      var w :| w in p.variants[Strip(t).id] && w != variant;
      var vs := SomeFields(p.variantFields[w], p);
      v := VariantValue(w, vs);
    } else {
      var vs := RefutedPart(fs, ps, p.variantFields[variant], p);
      v := VariantValue(variant, vs);
    }
  }

  lemma {:induction false} RefutedPart(fs: seq<nat>, ps: seq<Pattern>, ts: seq<Ty>, p: Program) returns (vs: seq<Value>)
    requires |fs| == |ps| && Peopled(p) && AllInhabited(ts, p)
    requires forall i :: 0 <= i < |ps| ==>
               fs[i] < |ts| && WellTyped(ps[i], ts[fs[i]], p) && NoAlternatives(ps[i])
    requires exists i :: 0 <= i < |ps| && !Sure(ps[i], ts[fs[i]], p)
    ensures HaveTypes(vs, ts, p)
    ensures exists i :: 0 <= i < |ps| && fs[i] < |vs| && !Matches(ps[i], vs[fs[i]])
    decreases ps, 0
  {
    var i :| 0 <= i < |ps| && !Sure(ps[i], ts[fs[i]], p);
    var some := SomeFields(ts, p);
    var v := Refuted(ps[i], ts[fs[i]], p);
    vs := some[fs[i] := v];
  }

  lemma MembersInhabited(t: Ty, p: Program)
    requires t.Tuple? && Inhabited(t, p)
    ensures AllInhabited(t.members, p)
  {
    var v :| HasType(v, t, p);
    assert v.TupleValue? && HaveTypes(v.members, t.members, p);
    assert forall k :: 0 <= k < |t.members| ==> HasType(v.members[k], t.members[k], p);
  }

  lemma TargetInhabited(t: Ty, p: Program)
    requires Strip(t).Reference? && Inhabited(t, p)
    ensures Inhabited(Strip(t).target, p)
  {
    var v :| HasType(v, t, p);
    StripTyped(v, t, p);
  }

  /** For patterns without `|`, that a pattern matches every value of its type can be read off it. */
  lemma SureExactly(q: Pattern, t: Ty, p: Program)
    requires WellTyped(q, t, p) && NoAlternatives(q) && Peopled(p) && Inhabited(t, p)
    ensures Sure(q, t, p) <==> Irrefutable(q, t, p)
  {
    hide Sure, HasType, Matches, WellTyped, NoAlternatives, Peopled;
    if Sure(q, t, p) {
      forall v | HasType(v, t, p) ensures Matches(q, v) {
        SureMatches(q, t, p, v);
      }
    } else {
      var v := Refuted(q, t, p);
    }
  }

  /** So a match on `{x: 5, ..}` alone is accepted although it fails on every other `x`. */
  lemma RestCounterexample()
    ensures var p := Program(map[], map[], map[0 := [Number]]);
            var q := StructRecord(0, [0], [NumberPattern(5)], true);
            var v := StructValue(0, [NumberValue(6)]);
            && WellTyped(q, Struct(0), p) && HasType(v, Struct(0), p)
            && Exhaustive(Struct(0), CoverageOf([Arm(q, false)]), p) && !Handled([Arm(q, false)], v)
  {
    var p := Program(map[], map[], map[0 := [Number]]);
    var ps := [NumberPattern(5)];
    assert WellTyped(ps[0], Number, p);
    assert RecordTyped([0], ps, true, [Number], p);
    var q := StructRecord(0, [0], ps, true);
    OneArm(Arm(q, false));
    var v := StructValue(0, [NumberValue(6)]);
    assert HasType(v.fields[0], Number, p);
    assert !Matches(ps[0], v.fields[0]);
    assert !Matches(q, v);
  }
}
