/** The state lattice of the move checker (src/check/moves.rs:47-203): trees of transitions in which
    a place without an entry of its own inherits from the nearest ancestor that has one.
 */
module MoveTree {

  /** What last happened to a place, and where.  Spans are compared in source order. */
  datatype Transition = Initialized(span: nat) | Uninitialized(span: nat) | Moved(span: nat)

  datatype Projection = Field(index: nat) | TupleField(index: nat) | ConstantIndex(index: nat) | DynamicIndex

  type Path = seq<Projection>

  datatype Node = Node(transition: Transition, children: map<Projection, Node>)

  function Leaf(t: Transition): Node {
    Node(t, map[])
  }

  // ------------------------------------------------------------------ meaning

  /** The transition in force at a path. */
  function Lookup(n: Node, p: Path): Transition
    decreases |p|
  {
    if p == [] then n.transition
    else if p[0] in n.children then Lookup(n.children[p[0]], p[1..])
    else n.transition
  }

  ghost predicate SameMeaning(a: Node, b: Node) {
    forall p :: Lookup(a, p) == Lookup(b, p)
  }

  /** Height, as a termination measure. */
  ghost function Height(n: Node): (h: nat)
    ensures h > 0
    ensures forall k :: k in n.children ==> Height(n.children[k]) < h
    decreases n, 1
  {
    1 + ChildrenHeight(n, n.children.Keys)
  }

  ghost function ChildrenHeight(n: Node, keys: set<Projection>): (h: nat)
    requires keys <= n.children.Keys
    ensures forall k :: k in keys ==> Height(n.children[k]) <= h
    decreases n, 0, keys
  {
    if keys == {} then 0
    else
      var k :| k in keys;
      var rest := ChildrenHeight(n, keys - {k});
      if Height(n.children[k]) <= rest then rest else Height(n.children[k])
  }

  lemma LeafHeight(t: Transition)
    ensures Height(Leaf(t)) == 1
  {
    assert Leaf(t).children.Keys == {};
  }

  // ------------------------------------------------------------------ update

  /** `StateNode::set`: the whole place gets the transition, forgetting what was below it. */
  function Set(n: Node, p: Path, t: Transition): Node
    decreases |p|
  {
    if p == [] then Node(t, map[])
    else
      var child := if p[0] in n.children then n.children[p[0]] else Leaf(n.transition);
      Node(n.transition, n.children[p[0] := Set(child, p[1..], t)])
  }

  /** An update takes effect at the place and everything below it, and nowhere else. */
  lemma {:induction false} SetMeaning(n: Node, p: Path, t: Transition, q: Path)
    ensures Lookup(Set(n, p, t), q) == if p <= q then t else Lookup(n, q)
    decreases |p|
  {
    if p != [] && q != [] {
      if p[0] == q[0] {
        var child := if p[0] in n.children then n.children[p[0]] else Leaf(n.transition);
        SetMeaning(child, p[1..], t, q[1..]);
        assert p == [p[0]] + p[1..] && q == [q[0]] + q[1..];
        assert p <= q <==> p[1..] <= q[1..];
      }
    }
  }

  // ------------------------------------------------------------------ join

  predicate KindBefore(a: Transition, b: Transition) {
    a.Uninitialized? || b.Moved?
  }

  /** `join_transition`: unavailable wins; ties go to the earlier span, then to uninitialised. */
  function JoinTransition(left: Transition, right: Transition): Transition {
    if left.Initialized? && right.Initialized? then
      if left.span <= right.span then left else right
    else if !left.Initialized? && right.Initialized? then left
    else if left.Initialized? && !right.Initialized? then right
    else if left.span < right.span || (left.span == right.span && KindBefore(left, right)) then left
    else right
  }

  /** `join_nodes`: children that say no more than their parent are dropped. */
  function Join(left: Node, right: Node): Node
    decreases Height(left) + Height(right)
  {
    LeafHeight(left.transition);
    LeafHeight(right.transition);
    var transition := JoinTransition(left.transition, right.transition);
    var joined := map k | k in left.children.Keys + right.children.Keys ::
      Join(if k in left.children then left.children[k] else Leaf(left.transition),
           if k in right.children then right.children[k] else Leaf(right.transition));
    Node(transition, map k | k in joined && !Redundant(joined[k], transition) :: joined[k])
  }

  predicate Redundant(child: Node, transition: Transition) {
    child.transition == transition && child.children == map[]
  }

  /** The child that stands at `k`, present or inherited. */
  function Child(n: Node, k: Projection): Node {
    if k in n.children then n.children[k] else Leaf(n.transition)
  }

  lemma ChildMeaning(n: Node, k: Projection, p: Path)
    ensures Lookup(n, [k] + p) == Lookup(Child(n, k), p)
  {
    assert ([k] + p)[1..] == p;
    if k !in n.children {
      LeafMeaning(n.transition, p);
    }
  }

  lemma LeafMeaning(t: Transition, p: Path)
    ensures Lookup(Leaf(t), p) == t
  {
  }

  /** The join denotes the pointwise minimum. */
  lemma {:induction false} JoinMeaning(a: Node, b: Node, p: Path)
    ensures Lookup(Join(a, b), p) == JoinTransition(Lookup(a, p), Lookup(b, p))
    decreases |p|
  {
    if p != [] {
      var k, rest := p[0], p[1..];
      assert p == [k] + rest;
      ChildMeaning(a, k, rest);
      ChildMeaning(b, k, rest);
      JoinMeaning(Child(a, k), Child(b, k), rest);
      ChildMeaning(Join(a, b), k, rest);
      var t := JoinTransition(a.transition, b.transition);
      var child := Join(Child(a, k), Child(b, k));
      if k in a.children.Keys + b.children.Keys && Redundant(child, t) {
        LeafMeaning(t, rest);
        assert child == Leaf(t);
      }
    }
  }

  // ------------------------------------------------------------------ pruned trees are unique

  /** No child repeats what it would inherit. */
  predicate Pruned(n: Node) {
    forall k :: k in n.children ==> Pruned(n.children[k]) && !Redundant(n.children[k], n.transition)
  }

  /** Joining always prunes, whatever the arguments look like. */
  lemma {:induction false} JoinPruned(a: Node, b: Node)
    ensures Pruned(Join(a, b))
    decreases Height(a) + Height(b)
  {
    LeafHeight(a.transition);
    LeafHeight(b.transition);
    forall k | k in a.children.Keys + b.children.Keys ensures Pruned(Join(Child(a, k), Child(b, k))) {
      JoinPruned(Child(a, k), Child(b, k));
    }
  }

  /** A pruned tree with one meaning everywhere is a leaf. */
  lemma {:induction false} PrunedConstant(n: Node, t: Transition)
    requires Pruned(n) && forall p :: Lookup(n, p) == t
    ensures n == Leaf(t)
  {
    assert Lookup(n, []) == t;
    forall k | k in n.children ensures false {
      forall p ensures Lookup(n.children[k], p) == t {
        ChildMeaning(n, k, p);
      }
      PrunedConstant(n.children[k], t);
    }
  }

  /** Pruned trees are determined by what they denote. */
  lemma {:induction false} PrunedUnique(a: Node, b: Node)
    requires Pruned(a) && Pruned(b) && SameMeaning(a, b)
    ensures a == b
  {
    assert Lookup(a, []) == Lookup(b, []);
    forall k | k in a.children || k in b.children
      ensures k in a.children && k in b.children && a.children[k] == b.children[k]
    {
      forall p ensures Lookup(Child(a, k), p) == Lookup(Child(b, k), p) {
        ChildMeaning(a, k, p);
        ChildMeaning(b, k, p);
      }
      SameKeys(a, b, k);
      PrunedUnique(a.children[k], b.children[k]);
    }
  }

  lemma SameKeys(a: Node, b: Node, k: Projection)
    requires Pruned(a) && Pruned(b) && a.transition == b.transition
    requires k in a.children || k in b.children
    requires SameMeaning(Child(a, k), Child(b, k))
    ensures k in a.children && k in b.children
  {
    var (n, m) := if k in a.children then (a, b) else (b, a);
    if k !in m.children {
      forall p ensures Lookup(n.children[k], p) == n.transition {
        assert Lookup(Child(a, k), p) == Lookup(Child(b, k), p);
        LeafMeaning(n.transition, p);
      }
      PrunedConstant(n.children[k], n.transition);
    }
  }

  // ------------------------------------------------------------------ algebra

  lemma JoinTransitionLaws(a: Transition, b: Transition, c: Transition)
    ensures JoinTransition(a, b) == JoinTransition(b, a)
    ensures JoinTransition(JoinTransition(a, b), c) == JoinTransition(a, JoinTransition(b, c))
    ensures JoinTransition(a, a) == a
    ensures JoinTransition(a, b).Initialized? <==> a.Initialized? && b.Initialized?
  {
  }

  lemma JoinCommutative(a: Node, b: Node)
    ensures Join(a, b) == Join(b, a)
  {
    forall p ensures Lookup(Join(a, b), p) == Lookup(Join(b, a), p) {
      JoinMeaning(a, b, p);
      JoinMeaning(b, a, p);
      JoinTransitionLaws(Lookup(a, p), Lookup(b, p), Lookup(a, p));
    }
    JoinPruned(a, b);
    JoinPruned(b, a);
    PrunedUnique(Join(a, b), Join(b, a));
  }

  lemma JoinAssociative(a: Node, b: Node, c: Node)
    ensures Join(Join(a, b), c) == Join(a, Join(b, c))
  {
    forall p ensures Lookup(Join(Join(a, b), c), p) == Lookup(Join(a, Join(b, c)), p) {
      JoinMeaning(Join(a, b), c, p);
      JoinMeaning(a, b, p);
      JoinMeaning(a, Join(b, c), p);
      JoinMeaning(b, c, p);
      JoinTransitionLaws(Lookup(a, p), Lookup(b, p), Lookup(c, p));
    }
    JoinPruned(Join(a, b), c);
    JoinPruned(a, Join(b, c));
    PrunedUnique(Join(Join(a, b), c), Join(a, Join(b, c)));
  }

  /** Joining a tree with itself only prunes it. */
  lemma {:induction false} JoinIdempotent(a: Node)
    ensures SameMeaning(Join(a, a), a)
    ensures Join(a, a) == a <==> Pruned(a)
  {
    forall p ensures Lookup(Join(a, a), p) == Lookup(a, p) {
      JoinMeaning(a, a, p);
      JoinTransitionLaws(Lookup(a, p), Lookup(a, p), Lookup(a, p));
    }
    JoinPruned(a, a);
    if Pruned(a) {
      PrunedUnique(Join(a, a), a);
    }
  }

  /** A join never makes a place available that either side does not. */
  lemma JoinNeverGrants(a: Node, b: Node, p: Path)
    ensures Lookup(Join(a, b), p).Initialized? <==> Lookup(a, p).Initialized? && Lookup(b, p).Initialized?
  {
    JoinMeaning(a, b, p);
    JoinTransitionLaws(Lookup(a, p), Lookup(b, p), Lookup(a, p));
  }
}
