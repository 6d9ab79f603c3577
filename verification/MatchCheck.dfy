/** The whole match, exactly (src/check/patterns.rs:6-129, src/check/coverage.rs): which values its arms
    are recorded to cover, stated on the arms themselves, and that a match is found exhaustive just
    when these are all values.
 */
module MatchCheck {
  import opened Exhaustiveness

  // ------------------------------------------------------------------ what a pattern claims

  /** A pattern that is taken to match every value, through any dereferences. */
  ghost predicate Catches(q: Pattern)
    decreases q
  {
    match q
    case Wildcard => true
    case TuplePattern(ps) => forall e :: e in ps ==> Catches(e)
    case DereferencePattern(inner) => Catches(inner)
    case StructRecord(_, _, ps, rest) => rest || forall e :: e in ps ==> Catches(e)
    case Alternatives(ps) => exists e :: e in ps && Catches(e)
    case _ => false
  }

  /** A pattern that is taken to match the value. */
  ghost predicate Claims(q: Pattern, v: Value)
    decreases q
  {
    match q
    case Wildcard => true
    case True => v == BoolValue(true)
    case False => v == BoolValue(false)
    case NumberPattern(_) => false
    case TuplePattern(ps) => forall e :: e in ps ==> Catches(e)
    case DereferencePattern(inner) => v.ReferenceValue? && Claims(inner, v.target)
    case VariantPattern(variant, ps) =>
      v.VariantValue? && v.variant == variant && forall e :: e in ps ==> Catches(e)
    case VariantRecord(variant, _, ps, rest) =>
      v.VariantValue? && v.variant == variant && (rest || forall e :: e in ps ==> Catches(e))
    case StructRecord(_, _, ps, rest) => rest || forall e :: e in ps ==> Catches(e)
    case Alternatives(ps) => exists e :: e in ps && Claims(e, v)
  }

  /** An unguarded arm claims the value. */
  ghost predicate Claimed(arms: seq<Arm>, v: Value) {
    exists a :: a in arms && !a.guarded && Claims(a.pattern, v)
  }

  ghost predicate SomeCatches(arms: seq<Arm>) {
    exists a :: a in arms && !a.guarded && Catches(a.pattern)
  }

  // ------------------------------------------------------------------ coverages of one type

  /** The coverages patterns of the type can have. */
  ghost predicate Shaped(c: Coverage, t: Ty, p: Program)
    decreases c
  {
    match c
    case Uncovered => true
    case Catchall => true
    case Variants(s) => Strip(t).Enum? && Strip(t).id in p.variants && s <= p.variants[Strip(t).id] && s != {}
    case Bools(s) => Strip(t) == Bool && s != {}
    case Dereferenced(inner) => Strip(t).Reference? && Shaped(inner, Strip(t).target, p)
    case Other => !Strip(t).Enum? && !Strip(t).Bool? && !Strip(t).Reference?
  }

  /** The union of two coverages of one type covers exactly what one of them covers. */
  lemma {:induction false} UnionExactly(a: Coverage, b: Coverage, t: Ty, v: Value, p: Program)
    requires Shaped(a, t, p) && Shaped(b, t, p) && HasType(v, t, p)
    ensures Shaped(Union(a, b), t, p)
    ensures Covers(Union(a, b), v) <==> Covers(a, v) || Covers(b, v)
    decreases a
  {
    StripTyped(v, t, p);
    if a.Dereferenced? && b.Dereferenced? {
      UnionExactly(a.inner, b.inner, Strip(t).target, v.target, p);
    }
  }

  lemma {:induction false} UnionShaped(a: Coverage, b: Coverage, t: Ty, p: Program)
    requires Shaped(a, t, p) && Shaped(b, t, p)
    ensures Shaped(Union(a, b), t, p)
    ensures IsCatchall(Union(a, b)) <==> IsCatchall(a) || IsCatchall(b)
    decreases a
  {
    if a.Dereferenced? && b.Dereferenced? {
      UnionShaped(a.inner, b.inner, Strip(t).target, p);
    }
  }

  lemma {:induction false} CheckShaped(q: Pattern, t: Ty, p: Program)
    requires WellTyped(q, t, p)
    ensures Shaped(Check(q), t, p)
    decreases q, 0
  {
    match q
    case DereferencePattern(inner) => CheckShaped(inner, Strip(t).target, p);
    case Alternatives(ps) => UnionAllShaped(ps, t, p);
    case _ =>
  }

  lemma {:induction false} UnionAllShaped(ps: seq<Pattern>, t: Ty, p: Program)
    requires forall a :: a in ps ==> WellTyped(a, t, p)
    ensures Shaped(UnionAll(ps), t, p)
    decreases ps, 1
  {
    if ps != [] {
      var last := ps[|ps| - 1];
      CheckShaped(last, t, p);
      UnionAllShaped(ps[..|ps| - 1], t, p);
      UnionShaped(UnionAll(ps[..|ps| - 1]), Check(last), t, p);
    }
  }

  lemma {:induction false} CatchesExactly(q: Pattern, t: Ty, p: Program)
    requires WellTyped(q, t, p)
    ensures IsCatchall(Check(q)) <==> Catches(q)
    decreases q, 0
  {
    match q
    case TuplePattern(ps) => AllCatch(ps, t.members, p);
    case DereferencePattern(inner) => CatchesExactly(inner, Strip(t).target, p);
    case StructRecord(id, fs, ps, rest) => FieldsCatch(fs, ps, rest, p.structFields[id], p);
    case Alternatives(ps) => UnionCatches(ps, t, p);
    case _ =>
  }

  lemma {:induction false} AllCatch(ps: seq<Pattern>, ts: seq<Ty>, p: Program)
    requires AllTyped(ps, ts, p)
    ensures AllCatchall(ps) <==> forall e :: e in ps ==> Catches(e)
    decreases ps, 1
  {
    forall e | e in ps ensures IsCatchall(Check(e)) <==> Catches(e) {
      var i :| 0 <= i < |ps| && ps[i] == e;
      CatchesExactly(e, ts[i], p);
    }
  }

  lemma {:induction false} FieldsCatch(fs: seq<nat>, ps: seq<Pattern>, rest: bool, ts: seq<Ty>, p: Program)
    requires RecordTyped(fs, ps, rest, ts, p)
    ensures AllCatchall(ps) <==> forall e :: e in ps ==> Catches(e)
    decreases ps, 1
  {
    forall e | e in ps ensures IsCatchall(Check(e)) <==> Catches(e) {
      var i :| 0 <= i < |ps| && ps[i] == e;
      CatchesExactly(e, ts[fs[i]], p);
    }
  }

  lemma {:induction false} UnionCatches(ps: seq<Pattern>, t: Ty, p: Program)
    requires forall a :: a in ps ==> WellTyped(a, t, p)
    ensures IsCatchall(UnionAll(ps)) <==> exists e :: e in ps && Catches(e)
    decreases ps, 1
  {
    if ps != [] {
      var (before, last) := (ps[..|ps| - 1], ps[|ps| - 1]);
      UnionAllShaped(before, t, p);
      CheckShaped(last, t, p);
      UnionShaped(UnionAll(before), Check(last), t, p);
      CatchesExactly(last, t, p);
      UnionCatches(before, t, p);
      assert ps == before + [last];
    }
  }

  /** What a pattern is recorded to cover is what it claims. */
  lemma {:induction false} ClaimsExactly(q: Pattern, t: Ty, v: Value, p: Program)
    requires WellTyped(q, t, p) && HasType(v, t, p)
    ensures Covers(Check(q), v) <==> Claims(q, v)
    decreases q, 0
  {
    StripTyped(v, t, p);
    match q
    case TuplePattern(ps) => AllCatch(ps, t.members, p);
    case DereferencePattern(inner) => ClaimsExactly(inner, Strip(t).target, v.target, p);
    case VariantPattern(variant, ps) => AllCatch(ps, p.variantFields[variant], p);
    case VariantRecord(variant, fs, ps, rest) => FieldsCatch(fs, ps, rest, p.variantFields[variant], p);
    case StructRecord(id, fs, ps, rest) => FieldsCatch(fs, ps, rest, p.structFields[id], p);
    case Alternatives(ps) => UnionClaims(ps, t, v, p);
    case _ =>
  }

  lemma {:induction false} UnionClaims(ps: seq<Pattern>, t: Ty, v: Value, p: Program)
    requires (forall a :: a in ps ==> WellTyped(a, t, p)) && HasType(v, t, p)
    ensures Covers(UnionAll(ps), v) <==> exists e :: e in ps && Claims(e, v)
    decreases ps, 1
  {
    if ps != [] {
      var (before, last) := (ps[..|ps| - 1], ps[|ps| - 1]);
      UnionAllShaped(before, t, p);
      CheckShaped(last, t, p);
      UnionExactly(UnionAll(before), Check(last), t, v, p);
      ClaimsExactly(last, t, v, p);
      UnionClaims(before, t, v, p);
      assert ps == before + [last];
    }
  }

  lemma {:induction false} ArmsShaped(arms: seq<Arm>, t: Ty, p: Program)
    requires ArmsTyped(arms, t, p)
    ensures Shaped(CoverageOf(arms), t, p)
    ensures IsCatchall(CoverageOf(arms)) <==> SomeCatches(arms)
  {
    if arms != [] {
      var (before, last) := (arms[..|arms| - 1], arms[|arms| - 1]);
      ArmsShaped(before, t, p);
      CheckShaped(last.pattern, t, p);
      UnionShaped(CoverageOf(before), Check(last.pattern), t, p);
      CatchesExactly(last.pattern, t, p);
      assert arms == before + [last];
    }
  }

  /** The accumulated coverage covers exactly the values an unguarded arm claims. */
  lemma {:induction false} ArmsClaim(arms: seq<Arm>, t: Ty, v: Value, p: Program)
    requires ArmsTyped(arms, t, p) && HasType(v, t, p)
    ensures Covers(CoverageOf(arms), v) <==> Claimed(arms, v)
  {
    if arms != [] {
      var (before, last) := (arms[..|arms| - 1], arms[|arms| - 1]);
      ArmsClaim(before, t, v, p);
      ArmsShaped(before, t, p);
      CheckShaped(last.pattern, t, p);
      UnionExactly(CoverageOf(before), Check(last.pattern), t, v, p);
      ClaimsExactly(last.pattern, t, v, p);
      assert arms == before + [last];
    }
  }

  // ------------------------------------------------------------------ found exhaustive

  /** The type has values, those of an enum in every variant, and no alias stands for an enum. */
  ghost predicate Populated(t: Ty, p: Program) {
    match t
    case Bool => true
    case Reference(target) => Populated(target, p)
    case Alias(of) => !Strip(of).Enum? && Populated(of, p)
    case Enum(id) =>
      && id in p.variants && p.variants[id] != {}
      && forall w :: w in p.variants[id] ==> w in p.variantFields && AllInhabited(p.variantFields[w], p)
    case _ => Inhabited(t, p)
  }

  lemma {:induction false} PopulatedStrip(t: Ty, p: Program)
    requires Populated(t, p)
    ensures Populated(Strip(t), p) && (Strip(t).Enum? ==> t == Strip(t))
  {
    if t.Alias? {
      PopulatedStrip(t.of, p);
    }
  }

  lemma {:induction false} SomeValue(t: Ty, p: Program) returns (v: Value)
    requires Populated(t, p)
    ensures HasType(v, t, p)
  {
    match t
    case Bool => v := BoolValue(true);
    case Reference(target) =>
      var w := SomeValue(target, p);
      v := ReferenceValue(w);
    case Alias(of) => v := SomeValue(of, p);
    case Enum(id) =>
      var w :| w in p.variants[id];
      v := OfVariant(id, w, p);
    case _ => v :| HasType(v, t, p);
  }

  lemma OfVariant(id: nat, w: nat, p: Program) returns (v: Value)
    requires Populated(Enum(id), p) && w in p.variants[id]
    ensures HasType(v, Enum(id), p) && v.VariantValue? && v.variant == w
  {
    var vs := SomeFields(p.variantFields[w], p);
    v := VariantValue(w, vs);
  }

  /** A coverage is found exhaustive exactly when it covers every value of the type. */
  lemma {:induction false} FoundExactly(t: Ty, c: Coverage, p: Program)
    requires Shaped(c, t, p) && Populated(t, p)
    ensures Exhaustive(t, c, p) <==> forall v :: HasType(v, t, p) ==> Covers(c, v)
    decreases c
  {
    hide AllInhabited;
    PopulatedStrip(t, p);
    ShapedFits(c, t, p);
    if Exhaustive(t, c, p) {
      forall v | HasType(v, t, p) ensures Covers(c, v) {
        ExhaustiveCovers(t, c, v, p);
      }
    } else {
      var v := Uncovering(t, c, p);
    }
  }

  lemma {:induction false} ShapedFits(c: Coverage, t: Ty, p: Program)
    requires Shaped(c, t, p)
    ensures Fits(c, t, p)
    decreases c
  {
    if c.Dereferenced? {
      ShapedFits(c.inner, Strip(t).target, p);
    }
  }

  /** A value that a coverage not found exhaustive leaves out. */
  lemma {:induction false} Uncovering(t: Ty, c: Coverage, p: Program) returns (v: Value)
    requires Shaped(c, t, p) && Populated(t, p) && !Exhaustive(t, c, p)
    ensures HasType(v, t, p) && !Covers(c, v)
    decreases c
  {
    PopulatedStrip(t, p);
    match c
    case Dereferenced(inner) =>
      var w := Uncovering(Strip(t).target, inner, p);
      v := ReferenceValue(w);
      TypedStrip(v, t, p);
    case Variants(s) =>
      var w :| w in p.variants[t.id] && w !in s;
      v := OfVariant(t.id, w, p);
    case Bools(values) =>
      BothBools(values);
      v := BoolValue(true !in values);
      TypedStrip(v, t, p);
    case _ => v := SomeValue(t, p);
  }

  lemma BothBools(s: set<bool>)
    requires |s| < 2
    ensures true !in s || false !in s
  {
    if true in s && false in s {
      var both := {true, false};
      assert both <= s;
      SubsetSize(both, s);
    }
  }

  /** A match is found exhaustive exactly when its unguarded arms claim every value. */
  lemma MatchFound(arms: seq<Arm>, t: Ty, p: Program)
    requires ArmsTyped(arms, t, p) && Populated(t, p)
    ensures Exhaustive(t, CoverageOf(arms), p) <==> forall v :: HasType(v, t, p) ==> Claimed(arms, v)
  {
    hide HasType, Claimed, Exhaustive, Covers, Shaped, WellTyped, Populated;
    ArmsShaped(arms, t, p);
    FoundExactly(t, CoverageOf(arms), p);
    forall v | HasType(v, t, p) ensures Covers(CoverageOf(arms), v) <==> Claimed(arms, v) {
      ArmsClaim(arms, t, v, p);
    }
  }

  // ------------------------------------------------------------------ enums and booleans

  /** The pattern, or an alternative of it, is for the variant and all its parts are catch-alls. */
  ghost predicate Names(q: Pattern, w: nat)
    decreases q
  {
    match q
    case VariantPattern(variant, ps) => variant == w && forall e :: e in ps ==> Catches(e)
    case VariantRecord(variant, _, ps, rest) => variant == w && (rest || forall e :: e in ps ==> Catches(e))
    case Alternatives(ps) => exists e :: e in ps && Names(e, w)
    case _ => false
  }

  /** The pattern, or an alternative of it, is the literal. */
  ghost predicate Literal(q: Pattern, b: bool)
    decreases q
  {
    match q
    case True => b
    case False => !b
    case Alternatives(ps) => exists e :: e in ps && Literal(e, b)
    case _ => false
  }

  ghost predicate SomeNames(arms: seq<Arm>, w: nat) {
    exists a :: a in arms && !a.guarded && Names(a.pattern, w)
  }

  ghost predicate SomeLiteral(arms: seq<Arm>, b: bool) {
    exists a :: a in arms && !a.guarded && Literal(a.pattern, b)
  }

  /** The variants a coverage of an enum has. */
  function VariantsIn(c: Coverage): set<nat> {
    if c.Variants? then c.variants else {}
  }

  function BoolsIn(c: Coverage): set<bool> {
    if c.Bools? then c.values else {}
  }

  lemma UnionParts(a: Coverage, b: Coverage, t: Ty, p: Program)
    requires Shaped(a, t, p) && Shaped(b, t, p) && !a.Catchall? && !b.Catchall?
    ensures Strip(t).Enum? ==> VariantsIn(Union(a, b)) == VariantsIn(a) + VariantsIn(b)
    ensures Strip(t).Bool? ==> BoolsIn(Union(a, b)) == BoolsIn(a) + BoolsIn(b)
  {
  }

  lemma {:induction false} PatternNames(q: Pattern, t: Ty, w: nat, b: bool, p: Program)
    requires WellTyped(q, t, p) && !Catches(q)
    ensures Strip(t).Enum? ==> (w in VariantsIn(Check(q)) <==> Names(q, w))
    ensures Strip(t).Bool? ==> (b in BoolsIn(Check(q)) <==> Literal(q, b))
    decreases q, 0
  {
    match q
    case VariantPattern(variant, ps) => AllCatch(ps, p.variantFields[variant], p);
    case VariantRecord(variant, fs, ps, rest) => FieldsCatch(fs, ps, rest, p.variantFields[variant], p);
    case Alternatives(ps) => AlternativesName(ps, t, w, b, p);
    case _ =>
  }

  lemma {:induction false} AlternativesName(ps: seq<Pattern>, t: Ty, w: nat, b: bool, p: Program)
    requires forall a :: a in ps ==> WellTyped(a, t, p) && !Catches(a)
    ensures Strip(t).Enum? ==> (w in VariantsIn(UnionAll(ps)) <==> exists e :: e in ps && Names(e, w))
    ensures Strip(t).Bool? ==> (b in BoolsIn(UnionAll(ps)) <==> exists e :: e in ps && Literal(e, b))
    decreases ps, 1
  {
    if ps != [] {
      var (before, last) := (ps[..|ps| - 1], ps[|ps| - 1]);
      assert ps == before + [last];
      UnionAllShaped(before, t, p);
      UnionCatches(before, t, p);
      CheckShaped(last, t, p);
      CatchesExactly(last, t, p);
      UnionParts(UnionAll(before), Check(last), t, p);
      PatternNames(last, t, w, b, p);
      AlternativesName(before, t, w, b, p);
    }
  }

  lemma {:induction false} ArmsName(arms: seq<Arm>, t: Ty, w: nat, b: bool, p: Program)
    requires ArmsTyped(arms, t, p) && !SomeCatches(arms)
    ensures Strip(t).Enum? ==> (w in VariantsIn(CoverageOf(arms)) <==> SomeNames(arms, w))
    ensures Strip(t).Bool? ==> (b in BoolsIn(CoverageOf(arms)) <==> SomeLiteral(arms, b))
  {
    if arms != [] {
      var (before, last) := (arms[..|arms| - 1], arms[|arms| - 1]);
      assert arms == before + [last];
      ArmsShaped(before, t, p);
      ArmsName(before, t, w, b, p);
      if !last.guarded {
        assert !Catches(last.pattern);
        CheckShaped(last.pattern, t, p);
        CatchesExactly(last.pattern, t, p);
        UnionParts(CoverageOf(before), Check(last.pattern), t, p);
        PatternNames(last.pattern, t, w, b, p);
      }
    }
  }

  /** A match on an enum is found exhaustive exactly when an unguarded arm is a catch-all, or each
      variant has an unguarded arm, or an alternative of one, whose parts are all catch-alls. */
  lemma EnumExactly(arms: seq<Arm>, id: nat, p: Program)
    requires ArmsTyped(arms, Enum(id), p) && id in p.variants && p.variants[id] != {}
    ensures Exhaustive(Enum(id), CoverageOf(arms), p) <==>
              SomeCatches(arms) || forall w :: w in p.variants[id] ==> SomeNames(arms, w)
    ensures Diagnosis(arms, Enum(id), p) ==
              if arms == [] || SomeCatches(arms) || forall w :: w in p.variants[id] ==> SomeNames(arms, w) then Silent
              else Reported(MissingVariants(set w | w in p.variants[id] && !SomeNames(arms, w)))
  {
    hide SomeNames, WellTyped;
    ArmsShaped(arms, Enum(id), p);
    if !SomeCatches(arms) {
      forall w ensures w in VariantsIn(CoverageOf(arms)) <==> SomeNames(arms, w) {
        ArmsName(arms, Enum(id), w, true, p);
      }
      assert p.variants[id] - VariantsIn(CoverageOf(arms))
          == set w | w in p.variants[id] && !SomeNames(arms, w);
    }
  }

  /** The same for booleans and their two literals. */
  lemma BoolExactly(arms: seq<Arm>, t: Ty, p: Program)
    requires ArmsTyped(arms, t, p) && Strip(t) == Bool
    ensures Exhaustive(t, CoverageOf(arms), p) <==>
              SomeCatches(arms) || (SomeLiteral(arms, true) && SomeLiteral(arms, false))
  {
    hide SomeLiteral, WellTyped;
    ArmsShaped(arms, t, p);
    if !SomeCatches(arms) {
      forall b ensures b in BoolsIn(CoverageOf(arms)) <==> SomeLiteral(arms, b) {
        ArmsName(arms, t, 0, b, p);
      }
      var values := BoolsIn(CoverageOf(arms));
      if |values| < 2 {
        BothBools(values);
      } else {
        TwoBools(values);
      }
    }
  }

  /** The coverage part of `check_match_statement`.  When the match is accepted as exhaustive, every
      value of the scrutinee's type is matched by an unguarded arm, and an arm reported unreachable
      comes after unguarded arms that already match every value. */
  method CheckMatch(arms: seq<Arm>, t: Ty, p: Program)
    returns (exhaustive: bool, unreachable: seq<nat>, diagnosis: Description)
    requires ArmsTyped(arms, t, p)
    ensures exhaustive == Exhaustive(t, CoverageOf(arms), p)
    ensures Populated(t, p) ==> (exhaustive <==> forall v :: HasType(v, t, p) ==> Claimed(arms, v))
    ensures ArmsHarmless(arms, t, p) && exhaustive ==> HandlesAll(arms, t, p)
    ensures forall i :: i in unreachable ==> i < |arms| && ArmsTyped(arms[..i], t, p)
    ensures forall i :: 0 <= i < |arms| ==> (i in unreachable <==> SomeCatches(arms[..i]))
    ensures ArmsHarmless(arms, t, p) ==> forall i :: i in unreachable ==> HandlesAll(arms[..i], t, p)
    ensures diagnosis == Diagnosis(arms, t, p)
    ensures ArmsHarmless(arms, t, p) && arms != [] && Plain(t, CoverageOf(arms)) && diagnosis.Silent? ==>
              HandlesAll(arms, t, p)
  {
    hide Claimed, SomeCatches, Populated, Check, Union, Exhaustive, IsCatchall, RestsHarmless, HasType, Matches,
      WellTyped, Describe, Plain;
    var coverage := Uncovered;
    unreachable := [];
    for i := 0 to |arms|
      invariant coverage == CoverageOf(arms[..i])
      invariant forall k :: k in unreachable <==> 0 <= k < i && IsCatchall(CoverageOf(arms[..k]))
    {
      assert arms[..i + 1][..i] == arms[..i];
      if IsCatchall(coverage) {
        unreachable := unreachable + [i];
      }
      if !arms[i].guarded {
        coverage := Union(coverage, Check(arms[i].pattern));
      }
    }
    assert arms[..|arms|] == arms;
    exhaustive := Exhaustive(t, coverage, p);
    diagnosis := if arms != [] && !exhaustive then Describe(t, coverage, p) else Silent;
    if Populated(t, p) {
      MatchFound(arms, t, p);
    }
    forall k | 0 <= k < |arms| ensures IsCatchall(CoverageOf(arms[..k])) <==> SomeCatches(arms[..k]) {
      assert forall a :: a in arms[..k] ==> a in arms;
      ArmsShaped(arms[..k], t, p);
    }
    ArmsHandle(arms, t, p);
    if ArmsHarmless(arms, t, p) {
      if arms != [] && Plain(t, coverage) && diagnosis.Silent? {
        SilenceHandles(arms, t, p);
      }
      forall k | k in unreachable ensures HandlesAll(arms[..k], t, p) {
        assert forall a :: a in arms[..k] ==> a in arms;
        ArmsHandle(arms[..k], t, p);
      }
    }
  }
}
