/** Trait coherence (src/traits.rs:660-975, src/types/context.rs:405-461): matching an implementation
    target against a type, the overlap test between two targets, and what a program that passes
    the coherence check can rely on.
 */
module Coherence {
  import opened Wrappers

  /** The outer shape of a type: everything two types must share before their children are
      compared. */
  datatype Shape =
    | Primitive(name: nat) | Nominal(declaration: nat) | Builtin(builtin: nat) | Tuple
    | Array(length: nat) | Slice(mutable: bool) | Reference(mutable: bool) | RawPointer(mutable: bool)

  datatype Ty = Parameter(id: nat) | Alias(target: Ty) | Node(shape: Shape, children: seq<Ty>)

  type Bindings = map<nat, Ty>

  // ------------------------------------------------------------------ equality up to aliases

  /** The type with every alias replaced by what it stands for. */
  function Canon(t: Ty): Ty
    decreases t, 0
  {
    match t
    case Parameter(_) => t
    case Alias(target) => Canon(target)
    case Node(shape, children) => Node(shape, CanonAll(children))
  }

  function CanonAll(ts: seq<Ty>): (r: seq<Ty>)
    ensures |r| == |ts|
    decreases ts, 1
  {
    if ts == [] then [] else [Canon(ts[0])] + CanonAll(ts[1..])
  }

  /** `exactly_equal`. */
  predicate ExactlyEqual(a: Ty, b: Ty)
    decreases a, b, 0
  {
    if a.Alias? then ExactlyEqual(a.target, b)
    else if b.Alias? then ExactlyEqual(a, b.target)
    else if a.Node? && b.Node? then a.shape == b.shape && AllEqual(a.children, b.children)
    else a == b
  }

  predicate AllEqual(a: seq<Ty>, b: seq<Ty>)
    decreases a, b, 1
  {
    |a| == |b| && (a == [] || (ExactlyEqual(a[0], b[0]) && AllEqual(a[1..], b[1..])))
  }

  lemma {:induction false} EqualIsCanonical(a: Ty, b: Ty)
    ensures ExactlyEqual(a, b) <==> Canon(a) == Canon(b)
    decreases a, b, 0
  {
    if a.Alias? {
      EqualIsCanonical(a.target, b);
    } else if b.Alias? {
      EqualIsCanonical(a, b.target);
    } else if a.Node? && b.Node? {
      AllEqualIsCanonical(a.children, b.children);
    }
  }

  lemma {:induction false} AllEqualIsCanonical(a: seq<Ty>, b: seq<Ty>)
    ensures AllEqual(a, b) <==> CanonAll(a) == CanonAll(b)
    decreases a, b, 1
  {
    if |a| == |b| && a != [] {
      EqualIsCanonical(a[0], b[0]);
      AllEqualIsCanonical(a[1..], b[1..]);
      assert CanonAll(a)[1..] == CanonAll(a[1..]) && CanonAll(b)[1..] == CanonAll(b[1..]);
      assert CanonAll(a)[0] == Canon(a[0]) && CanonAll(b)[0] == Canon(b[0]);
    }
  }

  // ------------------------------------------------------------------ substitution

  function Bound(s: Bindings, id: nat): Ty {
    if id in s then s[id] else Parameter(id)
  }

  function Substitute(t: Ty, s: Bindings): Ty
    decreases t, 0
  {
    match t
    case Parameter(id) => Bound(s, id)
    case Alias(target) => Alias(Substitute(target, s))
    case Node(shape, children) => Node(shape, SubstituteAll(children, s))
  }

  function SubstituteAll(ts: seq<Ty>, s: Bindings): (r: seq<Ty>)
    ensures |r| == |ts|
    decreases ts, 1
  {
    if ts == [] then [] else [Substitute(ts[0], s)] + SubstituteAll(ts[1..], s)
  }

  ghost predicate Mentions(t: Ty, id: nat)
    decreases t
  {
    match t
    case Parameter(p) => p == id
    case Alias(target) => Mentions(target, id)
    case Node(_, children) => exists c :: c in children && Mentions(c, id)
  }

  /** `a` is `pattern` with types put for its parameters. */
  ghost predicate Instance(pattern: Ty, s: Bindings, a: Ty) {
    Canon(Substitute(pattern, s)) == Canon(a)
  }

  ghost predicate InstanceAll(patterns: seq<Ty>, s: Bindings, actuals: seq<Ty>) {
    CanonAll(SubstituteAll(patterns, s)) == CanonAll(actuals)
  }

  lemma InstanceCons(patterns: seq<Ty>, s: Bindings, actuals: seq<Ty>)
    ensures patterns != [] && actuals != [] ==>
              (InstanceAll(patterns, s, actuals) <==>
                 Instance(patterns[0], s, actuals[0]) && InstanceAll(patterns[1..], s, actuals[1..]))
    ensures InstanceAll(patterns, s, actuals) ==> |patterns| == |actuals|
  {
    if patterns != [] && actuals != [] {
      var r, c := SubstituteAll(patterns, s), CanonAll(actuals);
      assert r[0] == Substitute(patterns[0], s) && r[1..] == SubstituteAll(patterns[1..], s);
      assert CanonAll(r)[0] == Canon(r[0]) && CanonAll(r)[1..] == CanonAll(r[1..]);
      assert c[0] == Canon(actuals[0]) && c[1..] == CanonAll(actuals[1..]);
    }
  }

  // ------------------------------------------------------------------ matching

  datatype Matched = Matched(ok: bool, bindings: Bindings)

  /** `match_type_pattern`: whether it succeeds, and the bindings it leaves. */
  function Match(pattern: Ty, actual: Ty, bindings: Bindings): Matched
    decreases pattern, actual, 0
  {
    if pattern.Alias? then Match(pattern.target, actual, bindings)
    else if actual.Alias? then Match(pattern, actual.target, bindings)
    else if pattern.Parameter? then
      if pattern.id in bindings then Matched(ExactlyEqual(bindings[pattern.id], actual), bindings)
      else Matched(true, bindings[pattern.id := actual])
    else if actual.Node? && pattern.shape == actual.shape then MatchAll(pattern.children, actual.children, bindings)
    else Matched(false, bindings)
  }

  function MatchAll(patterns: seq<Ty>, actuals: seq<Ty>, bindings: Bindings): Matched
    decreases patterns, actuals, 1
  {
    if |patterns| != |actuals| then Matched(false, bindings)
    else if patterns == [] then Matched(true, bindings)
    else
      var first := Match(patterns[0], actuals[0], bindings);
      if first.ok then MatchAll(patterns[1..], actuals[1..], first.bindings) else first
  }

  /** `more` binds what `s` binds, to the same types. */
  ghost predicate Extends(s: Bindings, more: Bindings) {
    forall id :: id in s ==> id in more && more[id] == s[id]
  }

  lemma {:induction false} SubstituteStable(t: Ty, s: Bindings, more: Bindings)
    requires Extends(s, more) && forall id :: Mentions(t, id) ==> id in s
    ensures Substitute(t, more) == Substitute(t, s)
    decreases t, 0
  {
    if t.Alias? {
      assert forall id :: Mentions(t.target, id) ==> Mentions(t, id);
      SubstituteStable(t.target, s, more);
    } else if t.Node? {
      assert forall c, id :: c in t.children && Mentions(c, id) ==> Mentions(t, id);
      SubstituteAllStable(t.children, s, more);
    } else {
      assert Mentions(t, t.id);
    }
  }

  lemma {:induction false} SubstituteAllStable(ts: seq<Ty>, s: Bindings, more: Bindings)
    requires Extends(s, more) && forall c, id :: c in ts && Mentions(c, id) ==> id in s
    ensures SubstituteAll(ts, more) == SubstituteAll(ts, s)
    decreases ts, 1
  {
    if ts != [] {
      SubstituteStable(ts[0], s, more);
      SubstituteAllStable(ts[1..], s, more);
    }
  }

  /** Match soundness: the bindings found make the pattern the type. */
  lemma {:induction false} MatchSound(pattern: Ty, actual: Ty, bindings: Bindings)
    requires Match(pattern, actual, bindings).ok
    ensures var s := Match(pattern, actual, bindings).bindings;
            && Extends(bindings, s) && Instance(pattern, s, actual)
            && forall id :: Mentions(pattern, id) ==> id in s
    decreases pattern, actual, 0
  {
    if pattern.Alias? {
      MatchSound(pattern.target, actual, bindings);
    } else if actual.Alias? {
      MatchSound(pattern, actual.target, bindings);
    } else if pattern.Parameter? {
      if pattern.id in bindings {
        EqualIsCanonical(bindings[pattern.id], actual);
      }
    } else {
      MatchAllSound(pattern.children, actual.children, bindings);
    }
  }

  lemma {:induction false} MatchAllSound(patterns: seq<Ty>, actuals: seq<Ty>, bindings: Bindings)
    requires MatchAll(patterns, actuals, bindings).ok
    ensures var s := MatchAll(patterns, actuals, bindings).bindings;
            && Extends(bindings, s) && InstanceAll(patterns, s, actuals)
            && forall c, id :: c in patterns && Mentions(c, id) ==> id in s
    decreases patterns, actuals, 1
  {
    if patterns != [] {
      var s1 := Match(patterns[0], actuals[0], bindings).bindings;
      var s := MatchAll(patterns, actuals, bindings).bindings;
      MatchSound(patterns[0], actuals[0], bindings);
      MatchAllSound(patterns[1..], actuals[1..], s1);
      SubstituteStable(patterns[0], s1, s);
      InstanceCons(patterns, s, actuals);
      forall c, id | c in patterns && Mentions(c, id) ensures id in s {
        assert c == patterns[0] || c in patterns[1..];
      }
    }
  }

  /** The bindings say of each parameter what `s` says, up to aliases. */
  ghost predicate Agrees(bindings: Bindings, s: Bindings) {
    forall id :: id in bindings ==> Canon(bindings[id]) == Canon(Bound(s, id))
  }

  /** Match completeness: a type that is an instance of the pattern is matched. */
  lemma {:induction false} MatchComplete(pattern: Ty, actual: Ty, bindings: Bindings, s: Bindings)
    requires Instance(pattern, s, actual) && Agrees(bindings, s)
    ensures Match(pattern, actual, bindings).ok && Agrees(Match(pattern, actual, bindings).bindings, s)
    decreases pattern, actual, 0
  {
    if pattern.Alias? {
      MatchComplete(pattern.target, actual, bindings, s);
    } else if actual.Alias? {
      MatchComplete(pattern, actual.target, bindings, s);
    } else if pattern.Parameter? {
      if pattern.id in bindings {
        EqualIsCanonical(bindings[pattern.id], actual);
      }
    } else {
      MatchAllComplete(pattern.children, actual.children, bindings, s);
    }
  }

  lemma {:induction false} MatchAllComplete(patterns: seq<Ty>, actuals: seq<Ty>, bindings: Bindings, s: Bindings)
    requires InstanceAll(patterns, s, actuals) && Agrees(bindings, s)
    ensures MatchAll(patterns, actuals, bindings).ok && Agrees(MatchAll(patterns, actuals, bindings).bindings, s)
    decreases patterns, actuals, 1
  {
    InstanceCons(patterns, s, actuals);
    if patterns != [] {
      MatchComplete(patterns[0], actuals[0], bindings, s);
      MatchAllComplete(patterns[1..], actuals[1..], Match(patterns[0], actuals[0], bindings).bindings, s);
    }
  }

  /** An implementation applies to a type exactly when the type is an instance of its target. */
  lemma MatchesExactly(pattern: Ty, actual: Ty)
    ensures Match(pattern, actual, map[]).ok
       <==> exists s: Bindings {:trigger Instance(pattern, s, actual)} :: Instance(pattern, s, actual)
  {
    if Match(pattern, actual, map[]).ok {
      MatchSound(pattern, actual, map[]);
    }
    if s: Bindings {:trigger Instance(pattern, s, actual)} :| Instance(pattern, s, actual) {
      MatchComplete(pattern, actual, map[], s);
    }
  }

  // ------------------------------------------------------------------ overlap

  /** `type_patterns_overlap`. */
  predicate Overlap(left: Ty, right: Ty)
    decreases left, right, 0
  {
    if left.Parameter? || right.Parameter? then true
    else if left.Alias? then Overlap(left.target, right)
    else if right.Alias? then Overlap(left, right.target)
    else left.shape == right.shape && OverlapAll(left.children, right.children)
  }

  predicate OverlapAll(left: seq<Ty>, right: seq<Ty>)
    decreases left, right, 1
  {
    |left| == |right| && (left == [] || (Overlap(left[0], right[0]) && OverlapAll(left[1..], right[1..])))
  }

  /** Overlap completeness: two targets with a common instance overlap. */
  lemma {:induction false} CommonInstanceOverlaps(left: Ty, right: Ty, s: Bindings, t: Bindings, actual: Ty)
    requires Instance(left, s, actual) && Instance(right, t, actual)
    ensures Overlap(left, right)
    decreases left, right, 0
  {
    if left.Parameter? || right.Parameter? {
    } else if left.Alias? {
      CommonInstanceOverlaps(left.target, right, s, t, actual);
    } else if right.Alias? {
      CommonInstanceOverlaps(left, right.target, s, t, actual);
    } else {
      var c := Canon(actual);
      CommonInstancesOverlap(left.children, right.children, s, t);
    }
  }

  lemma {:induction false} CommonInstancesOverlap(left: seq<Ty>, right: seq<Ty>, s: Bindings, t: Bindings)
    requires CanonAll(SubstituteAll(left, s)) == CanonAll(SubstituteAll(right, t))
    ensures OverlapAll(left, right)
    decreases left, right, 1
  {
    InstanceCons(left, s, SubstituteAll(right, t));
    if left != [] {
      var r := SubstituteAll(right, t);
      assert r[0] == Substitute(right[0], t) && r[1..] == SubstituteAll(right[1..], t);
      CommonInstanceOverlaps(left[0], right[0], s, t, r[0]);
      CommonInstancesOverlap(left[1..], right[1..], s, t);
    }
  }

  /** The test is only an upper bound: a pair of equal types and a pair of two different ones
      overlap without a common instance. */
  lemma OverlapIsConservative(s: Bindings, t: Bindings, actual: Ty)
    ensures var pair := Node(Tuple, [Parameter(0), Parameter(0)]);
            var mixed := Node(Tuple, [Node(Primitive(1), []), Node(Primitive(2), [])]);
            Overlap(pair, mixed) && !(Instance(pair, s, actual) && Instance(mixed, t, actual))
  {
    var pair := [Parameter(0), Parameter(0)];
    var mixed := [Node(Primitive(1), []), Node(Primitive(2), [])];
    assert pair[1..] == [Parameter(0)] && mixed[1..] == [Node(Primitive(2), [])];
    assert pair[1..][0] == Parameter(0) && |pair[1..][1..]| == |mixed[1..][1..]| == 0;
    assert OverlapAll(pair[1..][1..], mixed[1..][1..]);
    assert OverlapAll(pair[1..], mixed[1..]);
    PairCanon(Parameter(0), Parameter(0), s);
    PairCanon(mixed[0], mixed[1], t);
    assert mixed == [mixed[0], mixed[1]];
  }

  lemma PairCanon(a: Ty, b: Ty, s: Bindings)
    ensures CanonAll(SubstituteAll([a, b], s)) == [Canon(Substitute(a, s)), Canon(Substitute(b, s))]
  {
    var none: seq<Ty> := [];
    assert [a, b][1..] == [b] && [b][1..] == none;
    assert SubstituteAll([b], s) == [Substitute(b, s)] + SubstituteAll([b][1..], s);
    assert SubstituteAll([a, b], s) == [Substitute(a, s), Substitute(b, s)];
    var r := [Substitute(a, s), Substitute(b, s)];
    assert r[1..] == [Substitute(b, s)] && r[1..][1..] == none;
    assert CanonAll(r[1..]) == [Canon(r[1])] + CanonAll(r[1..][1..]);
  }

  // ------------------------------------------------------------------ when overlapping means clashing

  /** The occurrences of parameters in a type. */
  function Parameters(t: Ty): multiset<nat>
    decreases t, 0
  {
    match t
    case Parameter(id) => multiset{id}
    case Alias(target) => Parameters(target)
    case Node(_, children) => ParametersAll(children)
  }

  function ParametersAll(ts: seq<Ty>): multiset<nat>
    decreases ts, 1
  {
    if ts == [] then multiset{} else Parameters(ts[0]) + ParametersAll(ts[1..])
  }

  /** A target that names none of its parameters twice. */
  predicate Linear(t: Ty) {
    forall id | id in Parameters(t) :: Parameters(t)[id] == 1
  }

  predicate LinearAll(ts: seq<Ty>) {
    forall id | id in ParametersAll(ts) :: ParametersAll(ts)[id] == 1
  }

  predicate Closed(t: Ty) {
    Parameters(t) == multiset{}
  }

  /** Some concrete type is matched by both targets. */
  ghost predicate Clash(left: Ty, right: Ty) {
    exists a :: Closed(a) && Match(left, a, map[]).ok && Match(right, a, map[]).ok
  }

  lemma {:induction false} MentionsExactly(t: Ty, id: nat)
    ensures Mentions(t, id) <==> id in Parameters(t)
    decreases t, 0
  {
    match t
    case Parameter(_) =>
    case Alias(target) => MentionsExactly(target, id);
    case Node(_, children) => SomeMentions(children, id);
  }

  lemma {:induction false} SomeMentions(ts: seq<Ty>, id: nat)
    ensures (exists c :: c in ts && Mentions(c, id)) <==> id in ParametersAll(ts)
    decreases ts, 1
  {
    if ts != [] {
      MentionsExactly(ts[0], id);
      SomeMentions(ts[1..], id);
      assert forall c :: c in ts <==> c == ts[0] || c in ts[1..];
    }
  }

  /** Types without parameters for exactly the parameters of `t`. */
  ghost predicate Grounds(s: Bindings, parameters: multiset<nat>) {
    && (forall id :: id in s <==> id in parameters)
    && (forall id :: id in s ==> Closed(s[id]))
  }

  lemma {:induction false} GroundClosed(t: Ty, s: Bindings)
    requires forall id :: id in Parameters(t) ==> id in s && Closed(s[id])
    ensures Closed(Substitute(t, s))
    decreases t, 0
  {
    match t
    case Parameter(_) =>
    case Alias(target) => GroundClosed(target, s);
    case Node(_, children) => GroundAllClosed(children, s);
  }

  lemma {:induction false} GroundAllClosed(ts: seq<Ty>, s: Bindings)
    requires forall id :: id in ParametersAll(ts) ==> id in s && Closed(s[id])
    ensures ParametersAll(SubstituteAll(ts, s)) == multiset{}
    decreases ts, 1
  {
    if ts != [] {
      GroundClosed(ts[0], s);
      GroundAllClosed(ts[1..], s);
      assert SubstituteAll(ts, s)[1..] == SubstituteAll(ts[1..], s);
    }
  }

  /** One and the same closed type for every parameter. */
  function Filled(t: Ty): Bindings {
    map id | id in Parameters(t) :: Node(Primitive(0), [])
  }

  /** Overlapping targets that repeat no parameter can be made one closed type. */
  lemma {:induction false} Unify(left: Ty, right: Ty) returns (s: Bindings, t: Bindings)
    requires Overlap(left, right) && Linear(left) && Linear(right)
    ensures Grounds(s, Parameters(left)) && Grounds(t, Parameters(right))
    ensures Canon(Substitute(left, s)) == Canon(Substitute(right, t))
    decreases left, right, 0
  {
    if left.Parameter? {
      t := Filled(right);
      GroundClosed(right, t);
      s := map[left.id := Substitute(right, t)];
    } else if right.Parameter? {
      s := Filled(left);
      GroundClosed(left, s);
      t := map[right.id := Substitute(left, s)];
    } else if left.Alias? {
      assert Parameters(left.target) == Parameters(left);
      s, t := Unify(left.target, right);
    } else if right.Alias? {
      assert Parameters(right.target) == Parameters(right);
      s, t := Unify(left, right.target);
    } else {
      assert ParametersAll(left.children) == Parameters(left) && ParametersAll(right.children) == Parameters(right);
      s, t := UnifyAll(left.children, right.children);
    }
  }

  lemma {:induction false} UnifyAll(left: seq<Ty>, right: seq<Ty>) returns (s: Bindings, t: Bindings)
    requires OverlapAll(left, right) && LinearAll(left) && LinearAll(right)
    ensures Grounds(s, ParametersAll(left)) && Grounds(t, ParametersAll(right))
    ensures CanonAll(SubstituteAll(left, s)) == CanonAll(SubstituteAll(right, t))
    decreases left, right, 1
  {
    if left == [] {
      s, t := map[], map[];
    } else {
      LinearApart(left);
      LinearApart(right);
      var s1, t1 := Unify(left[0], right[0]);
      var s2, t2 := UnifyAll(left[1..], right[1..]);
      s, t := s1 + s2, t1 + t2;
      Together(left, s1, s2);
      Together(right, t1, t2);
    }
  }

  /** In a list without repetitions the first type shares no parameter with the others. */
  lemma LinearApart(ts: seq<Ty>)
    requires LinearAll(ts) && ts != []
    ensures Linear(ts[0]) && LinearAll(ts[1..])
    ensures forall id :: id in Parameters(ts[0]) ==> id !in ParametersAll(ts[1..])
  {
    var (a, b) := (Parameters(ts[0]), ParametersAll(ts[1..]));
    forall id ensures ParametersAll(ts)[id] == a[id] + b[id] {
    }
  }

  lemma Together(ts: seq<Ty>, s1: Bindings, s2: Bindings)
    requires ts != [] && Grounds(s1, Parameters(ts[0])) && Grounds(s2, ParametersAll(ts[1..]))
    requires forall id :: id in Parameters(ts[0]) ==> id !in ParametersAll(ts[1..])
    ensures Grounds(s1 + s2, ParametersAll(ts))
    ensures CanonAll(SubstituteAll(ts, s1 + s2))
         == [Canon(Substitute(ts[0], s1))] + CanonAll(SubstituteAll(ts[1..], s2))
  {
    var s := s1 + s2;
    forall id | Mentions(ts[0], id) ensures id in s1 {
      MentionsExactly(ts[0], id);
    }
    forall c, id | c in ts[1..] && Mentions(c, id) ensures id in s2 {
      SomeMentions(ts[1..], id);
    }
    SubstituteStable(ts[0], s1, s);
    SubstituteAllStable(ts[1..], s2, s);
    var r := SubstituteAll(ts, s);
    assert r[0] == Substitute(ts[0], s1) && r[1..] == SubstituteAll(ts[1..], s2);
  }

  /** Between targets that repeat no parameter, the overlap test is exact: it reports a pair exactly
      when both targets match some concrete type. */
  lemma OverlapExactly(left: Ty, right: Ty)
    requires Linear(left) && Linear(right)
    ensures Overlap(left, right) <==> Clash(left, right)
  {
    if Overlap(left, right) {
      var s, t := Unify(left, right);
      var a := Substitute(left, s);
      GroundClosed(left, s);
      MatchComplete(left, a, map[], s);
      MatchComplete(right, a, map[], t);
    }
    if Clash(left, right) {
      ClashOverlaps(left, right);
    }
  }

  lemma ClashOverlaps(left: Ty, right: Ty)
    requires Clash(left, right)
    ensures Overlap(left, right)
  {
    hide Overlap, Match, Instance, Closed;
    var a :| Closed(a) && Match(left, a, map[]).ok && Match(right, a, map[]).ok;
    MatchSound(left, a, map[]);
    MatchSound(right, a, map[]);
    CommonInstanceOverlaps(left, right, Match(left, a, map[]).bindings, Match(right, a, map[]).bindings, a);
  }

  /** The type with the occurrences of `id` numbered from `n` on, each a type of its own. */
  function Numbered(t: Ty, id: nat, n: nat): Ty
    decreases t, 0
  {
    match t
    case Parameter(p) => Node(Primitive(if p == id then n else 0), [])
    case Alias(target) => Numbered(target, id, n)
    case Node(shape, children) => Node(shape, NumberedAll(children, id, n))
  }

  function NumberedAll(ts: seq<Ty>, id: nat, n: nat): (r: seq<Ty>)
    ensures |r| == |ts|
    decreases ts, 1
  {
    if ts == [] then []
    else [Numbered(ts[0], id, n)] + NumberedAll(ts[1..], id, n + Parameters(ts[0])[id])
  }

  lemma {:induction false} NumberedOverlaps(t: Ty, id: nat, n: nat)
    ensures Overlap(t, Numbered(t, id, n)) && Closed(Numbered(t, id, n))
    decreases t, 0
  {
    match t
    case Parameter(_) => assert NumberedAll([], id, n) == [];
    case Alias(target) => NumberedOverlaps(target, id, n);
    case Node(_, children) => NumberedAllOverlap(children, id, n);
  }

  lemma {:induction false} NumberedAllOverlap(ts: seq<Ty>, id: nat, n: nat)
    ensures OverlapAll(ts, NumberedAll(ts, id, n)) && ParametersAll(NumberedAll(ts, id, n)) == multiset{}
    decreases ts, 1
  {
    if ts != [] {
      var m := n + Parameters(ts[0])[id];
      NumberedOverlaps(ts[0], id, n);
      NumberedAllOverlap(ts[1..], id, m);
      assert NumberedAll(ts, id, n)[1..] == NumberedAll(ts[1..], id, m);
    }
  }

  /** An instance that is the numbered type puts every number for the parameter. */
  lemma {:induction false} NumberedBinds(t: Ty, id: nat, n: nat, s: Bindings, k: nat)
    requires Canon(Substitute(t, s)) == Canon(Numbered(t, id, n)) && n <= k < n + Parameters(t)[id]
    ensures Canon(Bound(s, id)) == Node(Primitive(k), [])
    decreases t, 0
  {
    match t
    case Parameter(p) => assert p == id && k == n;
    case Alias(target) => NumberedBinds(target, id, n, s, k);
    case Node(_, children) => NumberedAllBinds(children, id, n, s, k);
  }

  lemma {:induction false} NumberedAllBinds(ts: seq<Ty>, id: nat, n: nat, s: Bindings, k: nat)
    requires CanonAll(SubstituteAll(ts, s)) == CanonAll(NumberedAll(ts, id, n))
    requires n <= k < n + ParametersAll(ts)[id]
    ensures Canon(Bound(s, id)) == Node(Primitive(k), [])
    decreases ts, 1
  {
    var m := n + Parameters(ts[0])[id];
    var r := NumberedAll(ts, id, n);
    assert r[0] == Numbered(ts[0], id, n) && r[1..] == NumberedAll(ts[1..], id, m);
    InstanceCons(ts, s, r);
    if k < m {
      NumberedBinds(ts[0], id, n, s, k);
    } else {
      NumberedAllBinds(ts[1..], id, m, s, k);
    }
  }

  lemma {:induction false} SubstituteClosed(t: Ty, s: Bindings)
    requires Closed(t)
    ensures Substitute(t, s) == t
    decreases t, 0
  {
    match t
    case Parameter(_) => assert false;
    case Alias(target) => SubstituteClosed(target, s);
    case Node(_, children) => SubstituteAllClosed(children, s);
  }

  lemma {:induction false} SubstituteAllClosed(ts: seq<Ty>, s: Bindings)
    requires ParametersAll(ts) == multiset{}
    ensures SubstituteAll(ts, s) == ts
    decreases ts, 1
  {
    if ts != [] {
      forall id ensures id !in Parameters(ts[0]) && id !in ParametersAll(ts[1..]) {
        assert id !in ParametersAll(ts);
      }
      SubstituteClosed(ts[0], s);
      SubstituteAllClosed(ts[1..], s);
    }
  }

  /** A target that repeats a parameter overlaps a concrete type that it does not match. */
  lemma RepeatedOverlaps(t: Ty, id: nat)
    requires Parameters(t)[id] >= 2
    ensures var other := Numbered(t, id, 0);
            Closed(other) && Overlap(t, other) && !Clash(t, other)
  {
    var other := Numbered(t, id, 0);
    NumberedOverlaps(t, id, 0);
    if Clash(t, other) {
      var a :| Closed(a) && Match(t, a, map[]).ok && Match(other, a, map[]).ok;
      MatchSound(t, a, map[]);
      MatchSound(other, a, map[]);
      var s := Match(t, a, map[]).bindings;
      SubstituteClosed(other, Match(other, a, map[]).bindings);
      NumberedBinds(t, id, 0, s, 0);
      NumberedBinds(t, id, 0, s, 1);
      assert false;
    }
  }

  /** Exactly the targets that repeat no parameter are judged rightly against every other such
      target. */
  lemma LinearExactly(t: Ty)
    ensures Linear(t) <==> forall other :: Linear(other) ==> (Overlap(t, other) <==> Clash(t, other))
  {
    if Linear(t) {
      forall other | Linear(other) ensures Overlap(t, other) <==> Clash(t, other) {
        OverlapExactly(t, other);
      }
    } else {
      var id :| id in Parameters(t) && Parameters(t)[id] != 1;
      RepeatedOverlaps(t, id);
      assert Linear(Numbered(t, id, 0));
    }
  }

  // ------------------------------------------------------------------ every target

  /** The target with every occurrence of a parameter named apart, from `n` on. */
  function Apart(t: Ty, n: nat): Ty
    decreases t, 0
  {
    match t
    case Parameter(_) => Parameter(n)
    case Alias(target) => Alias(Apart(target, n))
    case Node(shape, children) => Node(shape, ApartAll(children, n))
  }

  function ApartAll(ts: seq<Ty>, n: nat): (r: seq<Ty>)
    ensures |r| == |ts|
    decreases ts, 1
  {
    if ts == [] then [] else [Apart(ts[0], n)] + ApartAll(ts[1..], n + |Parameters(ts[0])|)
  }

  /** The occurrences are numbered through. */
  ghost predicate Run(ids: multiset<nat>, n: nat, count: nat) {
    |ids| == count && forall id :: ids[id] == if n <= id < n + count then 1 else 0
  }

  lemma RunNothing(n: nat)
    ensures Run(multiset{}, n, 0)
  {
  }

  lemma RunPlus(a: multiset<nat>, b: multiset<nat>, n: nat, c: nat, d: nat)
    requires Run(a, n, c) && Run(b, n + c, d)
    ensures Run(a + b, n, c + d)
  {
  }

  lemma {:induction false} ApartRun(t: Ty, n: nat)
    ensures Run(Parameters(Apart(t, n)), n, |Parameters(t)|)
    decreases t, 0
  {
    match t
    case Parameter(_) =>
    case Alias(target) => ApartRun(target, n);
    case Node(_, children) => ApartAllRun(children, n);
  }

  lemma {:induction false} ApartAllRun(ts: seq<Ty>, n: nat)
    ensures Run(ParametersAll(ApartAll(ts, n)), n, |ParametersAll(ts)|)
    decreases ts, 1
  {
    hide Run, Parameters, Apart;
    if ts == [] {
      RunNothing(n);
    } else {
      var next := n + |Parameters(ts[0])|;
      ApartRun(ts[0], n);
      ApartAllRun(ts[1..], next);
      RunPlus(Parameters(Apart(ts[0], n)), ParametersAll(ApartAll(ts[1..], next)), n, |Parameters(ts[0])|,
              |ParametersAll(ts[1..])|);
      assert ApartAll(ts, n)[0] == Apart(ts[0], n);
      assert ApartAll(ts, n)[1..] == ApartAll(ts[1..], n + |Parameters(ts[0])|);
    }
  }

  lemma ApartLinear(t: Ty)
    ensures Linear(Apart(t, 0))
  {
    ApartRun(t, 0);
  }

  lemma {:induction false} ApartOverlaps(left: Ty, right: Ty, m: nat, n: nat)
    ensures Overlap(Apart(left, m), Apart(right, n)) == Overlap(left, right)
    decreases left, right, 0
  {
    if left.Parameter? || right.Parameter? {
    } else if left.Alias? {
      ApartOverlaps(left.target, right, m, n);
    } else if right.Alias? {
      ApartOverlaps(left, right.target, m, n);
    } else {
      ApartAllOverlap(left.children, right.children, m, n);
    }
  }

  lemma {:induction false} ApartAllOverlap(left: seq<Ty>, right: seq<Ty>, m: nat, n: nat)
    ensures OverlapAll(ApartAll(left, m), ApartAll(right, n)) == OverlapAll(left, right)
    decreases left, right, 1
  {
    if left != [] && right != [] {
      var (m2, n2) := (m + |Parameters(left[0])|, n + |Parameters(right[0])|);
      ApartOverlaps(left[0], right[0], m, n);
      ApartAllOverlap(left[1..], right[1..], m2, n2);
      assert ApartAll(left, m)[0] == Apart(left[0], m) && ApartAll(left, m)[1..] == ApartAll(left[1..], m2);
      assert ApartAll(right, n)[0] == Apart(right[0], n) && ApartAll(right, n)[1..] == ApartAll(right[1..], n2);
    }
  }

  /** What the overlap test decides of any two targets: whether some concrete type is matched by both
      once every occurrence of a parameter may stand for a type of its own. */
  lemma OverlapMeans(left: Ty, right: Ty)
    ensures Overlap(left, right) <==> Clash(Apart(left, 0), Apart(right, 0))
  {
    ApartLinear(left);
    ApartLinear(right);
    ApartOverlaps(left, right, 0, 0);
    OverlapExactly(Apart(left, 0), Apart(right, 0));
  }

  // ------------------------------------------------------------------ the check

  type Package = Option<nat>

  datatype Implementation = Implementation(package: Package, traitId: nat, target: Ty)

  /** The declaration a target names, aliases looked through. */
  function TargetDeclaration(t: Ty): Option<nat> {
    match t
    case Alias(target) => TargetDeclaration(target)
    case Node(Nominal(d), _) => Some(d)
    case _ => None
  }

  /** The orphan rule. */
  predicate Orphan(owner: nat -> Package, i: Implementation) {
    var target := TargetDeclaration(i.target);
    owner(i.traitId) != i.package && !(target.Some? && owner(target.value) == i.package)
  }

  ghost predicate Conflict(a: Implementation, b: Implementation) {
    a.traitId == b.traitId && Overlap(a.target, b.target)
  }

  /** The implementation stands in the package of its trait or of the type it is for. */
  ghost predicate AtHome(owner: nat -> Package, i: Implementation) {
    || owner(i.traitId) == i.package
    || exists d: nat, children :: Canon(i.target) == Node(Nominal(d), children) && owner(d) == i.package
  }

  lemma {:induction false} DeclarationNamed(t: Ty)
    ensures forall d: nat :: TargetDeclaration(t) == Some(d) <==>
                        exists children :: Canon(t) == Node(Nominal(d), children)
    decreases t
  {
    match t
    case Parameter(_) =>
    case Alias(target) => DeclarationNamed(target);
    case Node(Nominal(d), children) => assert Canon(t) == Node(Nominal(d), CanonAll(children));
    case Node(_, _) =>
  }

  lemma OrphanExactly(owner: nat -> Package, i: Implementation)
    ensures Orphan(owner, i) <==> !AtHome(owner, i)
  {
    DeclarationNamed(i.target);
    if !Orphan(owner, i) && owner(i.traitId) != i.package {
      var d := TargetDeclaration(i.target).value;
      var children :| Canon(i.target) == Node(Nominal(d), children);
    }
    if d: nat, children :| Canon(i.target) == Node(Nominal(d), children) && owner(d) == i.package {
      assert TargetDeclaration(i.target) == Some(d);
    }
  }

  datatype Report = OrphanImplementation(index: nat) | AlreadyImplemented(index: nat, earlier: nat)

  /** No conflict was reported of the implementation. */
  ghost predicate Kept(reports: seq<Report>, k: nat) {
    forall e: nat :: AlreadyImplemented(k, e) !in reports
  }

  /** The first implementation before `k` that was kept and conflicts with it. */
  ghost predicate FirstConflict(implementations: seq<Implementation>, reports: seq<Report>, k: nat, e: nat) {
    && e < k < |implementations| && Kept(reports, e) && Conflict(implementations[e], implementations[k])
    && forall b :: 0 <= b < e && Kept(reports, b) ==> !Conflict(implementations[b], implementations[k])
  }

  /** `check_coherence`. */
  method CheckCoherence(owner: nat -> Package, implementations: seq<Implementation>) returns (reports: seq<Report>)
    ensures reports == [] <==>
              && (forall i :: 0 <= i < |implementations| ==> AtHome(owner, implementations[i]))
              && (forall i, j :: 0 <= i < j < |implementations| ==> !Conflict(implementations[i], implementations[j]))
    ensures forall k: nat :: OrphanImplementation(k) in reports <==>
                             k < |implementations| && !AtHome(owner, implementations[k])
    ensures forall k: nat, e: nat :: AlreadyImplemented(k, e) in reports <==>
                                     FirstConflict(implementations, reports, k, e)
  {
    hide Overlap, Orphan, AtHome, Conflict, ReportedUpTo, KeptUpTo;
    reports := [];
    var seen: seq<nat> := [];
    assert ReportedUpTo(owner, implementations, reports, 0) && KeptUpTo(seen, reports, 0) by {
      StartReported(owner, implementations);
    }
    for i := 0 to |implementations|
      invariant ReportedUpTo(owner, implementations, reports, i) && KeptUpTo(seen, reports, i)
    {
      ghost var (before, seenBefore) := (reports, seen);
      OrphanExactly(owner, implementations[i]);
      KeptBelow(seen, reports, i);
      if Orphan(owner, implementations[i]) {
        reports := reports + [OrphanImplementation(i)];
      }
      var found := FindConflict(implementations, seen, implementations[i]);
      if found.Some? {
        reports := reports + [AlreadyImplemented(i, found.value)];
      } else {
        seen := seen + [i];
      }
      OneMore(owner, implementations, before, seenBefore, i, found, reports);
    }
    AllReported(owner, implementations, reports);
    NothingReported(owner, implementations, reports);
  }

  /** What has been reported of the first `i` implementations. */
  ghost predicate ReportedUpTo(owner: nat -> Package, implementations: seq<Implementation>, reports: seq<Report>,
                               i: nat)
    requires i <= |implementations|
  {
    && (forall r :: r in reports ==> r.index < i)
    && (forall k: nat :: OrphanImplementation(k) in reports <==> k < i && !AtHome(owner, implementations[k]))
    && (forall k: nat, e: nat :: AlreadyImplemented(k, e) in reports <==>
                                 k < i && FirstConflict(implementations, reports, k, e))
  }

  /** `seen` lists those of the first `i` implementations that were kept, in order. */
  ghost predicate KeptUpTo(seen: seq<nat>, reports: seq<Report>, i: nat) {
    && (forall k: nat :: k in seen <==> k < i && Kept(reports, k))
    && forall a, b :: 0 <= a < b < |seen| ==> seen[a] < seen[b]
  }

  lemma StartReported(owner: nat -> Package, implementations: seq<Implementation>)
    ensures ReportedUpTo(owner, implementations, [], 0) && KeptUpTo([], [], 0)
  {
  }

  lemma KeptBelow(seen: seq<nat>, reports: seq<Report>, i: nat)
    requires KeptUpTo(seen, reports, i)
    ensures forall k :: k in seen ==> k < i
    ensures forall a, b :: 0 <= a < b < |seen| ==> seen[a] < seen[b]
  {
  }

  lemma AllReported(owner: nat -> Package, implementations: seq<Implementation>, reports: seq<Report>)
    requires ReportedUpTo(owner, implementations, reports, |implementations|)
    ensures forall r :: r in reports ==> r.index < |implementations|
    ensures forall k: nat :: OrphanImplementation(k) in reports <==>
                             k < |implementations| && !AtHome(owner, implementations[k])
    ensures forall k: nat, e: nat :: AlreadyImplemented(k, e) in reports <==>
                                     FirstConflict(implementations, reports, k, e)
  {
    hide AtHome, Conflict;
  }

  /** `found` is the first of `seen` that conflicts with `added`, if one does. */
  ghost predicate FoundFirst(implementations: seq<Implementation>, seen: seq<nat>, added: Implementation,
                             found: Option<nat>)
    requires forall k :: k in seen ==> k < |implementations|
  {
    match found
    case None => forall k :: k in seen ==> !Conflict(implementations[k], added)
    case Some(e) =>
      && e in seen && Conflict(implementations[e], added)
      && forall k :: k in seen && k < e ==> !Conflict(implementations[k], added)
  }

  /** One implementation more. */
  lemma OneMore(owner: nat -> Package, implementations: seq<Implementation>, before: seq<Report>, seen: seq<nat>,
                i: nat, found: Option<nat>, reports: seq<Report>)
    requires i < |implementations| && ReportedUpTo(owner, implementations, before, i) && KeptUpTo(seen, before, i)
    requires FoundFirst(implementations, seen, implementations[i], found)
    requires reports == before + (if AtHome(owner, implementations[i]) then [] else [OrphanImplementation(i)])
                      + if found.Some? then [AlreadyImplemented(i, found.value)] else []
    ensures ReportedUpTo(owner, implementations, reports, i + 1)
    ensures KeptUpTo(if found.Some? then seen else seen + [i], reports, i + 1)
  {
    hide AtHome, Conflict, Kept, FirstConflict, FoundFirst, KeptUpTo, ReportedUpTo;
    var home := AtHome(owner, implementations[i]);
    Added(before, i, home, found, reports);
    StillKept(before, reports, i);
    MoreOrphans(owner, implementations, before, i, found, reports);
    NewKept(reports, i, found);
    MoreConflicts(owner, implementations, before, seen, i, found, reports);
    MoreKept(before, reports, seen, i, found);
    assert ReportedUpTo(owner, implementations, reports, i + 1) by {
      Summed(owner, implementations, reports, i + 1);
    }
  }

  /** The reports are those before and the new ones. */
  ghost predicate Extended(before: seq<Report>, i: nat, home: bool, found: Option<nat>, reports: seq<Report>) {
    && before <= reports && (forall r :: r in reports[|before|..] ==> r.index == i)
    && forall r :: r in reports <==>
         || r in before || (!home && r == OrphanImplementation(i))
         || (found.Some? && r == AlreadyImplemented(i, found.value))
  }

  lemma Added(before: seq<Report>, i: nat, home: bool, found: Option<nat>, reports: seq<Report>)
    requires reports == before + (if home then [] else [OrphanImplementation(i)])
                      + if found.Some? then [AlreadyImplemented(i, found.value)] else []
    ensures Extended(before, i, home, found, reports)
  {
    var orphan := if home then [] else [OrphanImplementation(i)];
    var conflict := if found.Some? then [AlreadyImplemented(i, found.value)] else [];
    assert reports == before + (orphan + conflict) && reports[|before|..] == orphan + conflict;
    forall r
      ensures r in reports <==> r in before || (!home && r == OrphanImplementation(i))
                                || (found.Some? && r == AlreadyImplemented(i, found.value))
    {
      assert r in reports <==> r in before || r in orphan || r in conflict;
    }
  }

  lemma MoreOrphans(owner: nat -> Package, implementations: seq<Implementation>, before: seq<Report>, i: nat,
                    found: Option<nat>, reports: seq<Report>)
    requires i < |implementations| && ReportedUpTo(owner, implementations, before, i)
    requires Extended(before, i, AtHome(owner, implementations[i]), found, reports)
    ensures forall r :: r in reports ==> r.index < i + 1
    ensures forall k: nat :: OrphanImplementation(k) in reports <==> k < i + 1 && !AtHome(owner, implementations[k])
    ensures forall e: nat :: AlreadyImplemented(i, e) in reports <==> found == Some(e)
  {
    hide AtHome, FirstConflict;
  }

  lemma MoreConflicts(owner: nat -> Package, implementations: seq<Implementation>, before: seq<Report>, seen: seq<nat>,
                      i: nat, found: Option<nat>, reports: seq<Report>)
    requires i < |implementations| && ReportedUpTo(owner, implementations, before, i) && KeptUpTo(seen, before, i)
    requires FoundFirst(implementations, seen, implementations[i], found)
    requires Extended(before, i, AtHome(owner, implementations[i]), found, reports)
    requires forall r :: r in reports ==> r.index < i + 1
    requires forall e: nat :: AlreadyImplemented(i, e) in reports <==> found == Some(e)
    ensures forall k: nat, e: nat :: AlreadyImplemented(k, e) in reports <==>
                                     k < i + 1 && FirstConflict(implementations, reports, k, e)
  {
    hide AtHome, FirstConflict, FoundFirst, KeptUpTo, Conflict;
    KeptBelow(seen, before, i);
    StillKept(before, reports, i);
    forall k: nat, e: nat
      ensures AlreadyImplemented(k, e) in reports <==> k < i + 1 && FirstConflict(implementations, reports, k, e)
    {
      if k < i {
        SameFirst(implementations, before, reports, i, k, e);
      } else if k == i {
        NewFirst(implementations, before, reports, seen, i, found, e);
      }
    }
  }

  lemma Summed(owner: nat -> Package, implementations: seq<Implementation>, reports: seq<Report>, i: nat)
    requires i <= |implementations| && forall r :: r in reports ==> r.index < i
    requires forall k: nat :: OrphanImplementation(k) in reports <==> k < i && !AtHome(owner, implementations[k])
    requires forall k: nat, e: nat :: AlreadyImplemented(k, e) in reports <==>
                                      k < i && FirstConflict(implementations, reports, k, e)
    ensures ReportedUpTo(owner, implementations, reports, i)
  {
    hide AtHome, FirstConflict;
  }

  lemma MoreKept(before: seq<Report>, reports: seq<Report>, seen: seq<nat>, i: nat, found: Option<nat>)
    requires KeptUpTo(seen, before, i) && (Kept(reports, i) <==> found.None?)
    requires forall k: nat :: k < i ==> (Kept(reports, k) <==> Kept(before, k))
    ensures KeptUpTo(if found.Some? then seen else seen + [i], reports, i + 1)
  {
    hide Kept;
    var next := if found.Some? then seen else seen + [i];
    forall k: nat ensures k in next <==> k < i + 1 && Kept(reports, k) {
      assert k in seen <==> k < i && Kept(before, k);
    }
    forall a, b | 0 <= a < b < |next| ensures next[a] < next[b] {
      assert a < |seen| && seen[a] in seen;
    }
  }

  lemma NewKept(reports: seq<Report>, i: nat, found: Option<nat>)
    requires forall e: nat :: AlreadyImplemented(i, e) in reports <==> found == Some(e)
    ensures Kept(reports, i) <==> found.None?
  {
  }

  lemma SameFirst(implementations: seq<Implementation>, before: seq<Report>, after: seq<Report>, i: nat, k: nat, e: nat)
    requires before <= after && (forall r :: r in after[|before|..] ==> r.index == i) && k < i
    ensures AlreadyImplemented(k, e) in after <==> AlreadyImplemented(k, e) in before
    ensures FirstConflict(implementations, after, k, e) <==> FirstConflict(implementations, before, k, e)
  {
    hide Conflict, Kept;
    StillKept(before, after, i);
    assert after == before + after[|before|..];
  }

  /** What was found is the first conflict among those kept. */
  lemma NewFirst(implementations: seq<Implementation>, before: seq<Report>, reports: seq<Report>, seen: seq<nat>,
                 i: nat, found: Option<nat>, e: nat)
    requires i < |implementations| && KeptUpTo(seen, before, i)
    requires FoundFirst(implementations, seen, implementations[i], found)
    requires forall k: nat :: k < i ==> (Kept(reports, k) <==> Kept(before, k))
    requires forall b: nat :: AlreadyImplemented(i, b) in reports <==> found == Some(b)
    ensures AlreadyImplemented(i, e) in reports <==> FirstConflict(implementations, reports, i, e)
  {
    hide Conflict, Kept;
    if found.Some? && found.value < e {
      assert found.value in seen && Kept(reports, found.value);
    }
  }

  lemma StillKept(before: seq<Report>, after: seq<Report>, i: nat)
    requires before <= after && forall r :: r in after[|before|..] ==> r.index == i
    ensures forall k: nat :: k < i ==> (Kept(after, k) <==> Kept(before, k))
  {
    assert after == before + after[|before|..];
    forall k: nat, e: nat | k < i ensures AlreadyImplemented(k, e) in after <==> AlreadyImplemented(k, e) in before {
    }
  }

  /** Nothing is reported exactly when nothing is wrong. */
  lemma NothingReported(owner: nat -> Package, implementations: seq<Implementation>, reports: seq<Report>)
    requires forall r :: r in reports ==> r.index < |implementations|
    requires forall k: nat :: OrphanImplementation(k) in reports <==>
                              k < |implementations| && !AtHome(owner, implementations[k])
    requires forall k: nat, e: nat :: AlreadyImplemented(k, e) in reports <==>
                                      FirstConflict(implementations, reports, k, e)
    ensures reports == [] <==>
              && (forall i :: 0 <= i < |implementations| ==> AtHome(owner, implementations[i]))
              && (forall i, j :: 0 <= i < j < |implementations| ==> !Conflict(implementations[i], implementations[j]))
  {
    hide AtHome, Conflict;
    if reports == [] {
      forall i, j | 0 <= i < j < |implementations| ensures !Conflict(implementations[i], implementations[j]) {
        NoFirstConflict(implementations, reports, j, j);
      }
      forall i | 0 <= i < |implementations| ensures AtHome(owner, implementations[i]) {
        assert OrphanImplementation(i) !in reports;
      }
    } else {
      var r := reports[0];
      assert r in reports;
      match r
      case OrphanImplementation(k) => assert !AtHome(owner, implementations[k]);
      case AlreadyImplemented(k, e) => assert FirstConflict(implementations, reports, k, e);
    }
  }

  lemma {:induction false} NoFirstConflict(implementations: seq<Implementation>, reports: seq<Report>, k: nat, n: nat)
    requires reports == [] && n <= k < |implementations|
    requires forall e: nat :: !FirstConflict(implementations, reports, k, e)
    ensures forall b :: 0 <= b < n ==> !Conflict(implementations[b], implementations[k])
  {
    hide Conflict;
    if n > 0 {
      NoFirstConflict(implementations, reports, k, n - 1);
      assert !FirstConflict(implementations, reports, k, n - 1);
    }
  }

  /** The search through the implementations seen so far. */
  method FindConflict(implementations: seq<Implementation>, seen: seq<nat>, added: Implementation)
    returns (r: Option<nat>)
    requires forall k :: k in seen ==> k < |implementations|
    requires forall a, b :: 0 <= a < b < |seen| ==> seen[a] < seen[b]
    ensures r.Some? ==> r.value in seen && Conflict(implementations[r.value], added)
    ensures r.Some? ==> forall k :: k in seen && k < r.value ==> !Conflict(implementations[k], added)
    ensures r.None? ==> forall k :: k in seen ==> !Conflict(implementations[k], added)
  {
    var index := 0;
    while index < |seen|
      invariant 0 <= index <= |seen|
      invariant forall k :: 0 <= k < index ==> seen[k] in seen && !Conflict(implementations[seen[k]], added)
    {
      var k := seen[index];
      assert k in seen;
      if implementations[k].traitId == added.traitId && Overlap(implementations[k].target, added.target) {
        return Some(k);
      }
      index := index + 1;
    }
    r := None;
  }

  /** Coherence implies unique selection: in a program the check accepts, no type is matched by the
      targets of two implementations of one trait. */
  lemma UniqueSelection(implementations: seq<Implementation>, i: nat, j: nat, actual: Ty)
    requires i < |implementations| && j < |implementations| && implementations[i].traitId == implementations[j].traitId
    requires forall a, b :: 0 <= a < b < |implementations| ==> !Conflict(implementations[a], implementations[b])
    requires Match(implementations[i].target, actual, map[]).ok && Match(implementations[j].target, actual, map[]).ok
    ensures i == j
  {
    hide Overlap, Match, Instance;
    MatchSound(implementations[i].target, actual, map[]);
    MatchSound(implementations[j].target, actual, map[]);
    var s := Match(implementations[i].target, actual, map[]).bindings;
    var t := Match(implementations[j].target, actual, map[]).bindings;
    CommonInstanceOverlaps(implementations[i].target, implementations[j].target, s, t, actual);
    CommonInstanceOverlaps(implementations[j].target, implementations[i].target, t, s, actual);
    assert Conflict(implementations[i], implementations[j]) && Conflict(implementations[j], implementations[i]);
  }

  /** Where no target repeats a parameter, the check rejects exactly the programs in which one trait
      has two implementations for some concrete type. */
  lemma ConflictsExactly(implementations: seq<Implementation>)
    requires forall i :: i in implementations ==> Linear(i.target)
    ensures (forall i, j :: 0 <= i < j < |implementations| ==> !Conflict(implementations[i], implementations[j])) <==>
            (forall i, j :: 0 <= i < j < |implementations| ==>
               implementations[i].traitId == implementations[j].traitId ==>
                 !Clash(implementations[i].target, implementations[j].target))
  {
    hide Overlap, Clash, Linear;
    forall i, j | 0 <= i < j < |implementations|
      ensures Conflict(implementations[i], implementations[j]) <==>
              implementations[i].traitId == implementations[j].traitId
              && Clash(implementations[i].target, implementations[j].target)
    {
      assert implementations[i] in implementations && implementations[j] in implementations;
      OverlapExactly(implementations[i].target, implementations[j].target);
    }
  }
}
