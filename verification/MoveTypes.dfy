/** Types and availability for the move checker (src/check/moves.rs:933-1107): when a place may be
    used, given the tree of transitions of its root.
 */
module MoveTypes {
  import opened MoveTree
  import opened Wrappers

  /** Types as the checker sees them: a scalar is anything without parts of its own to move. */
  datatype Ty = Scalar | Tuple(elements: seq<Ty>) | Struct(fields: seq<Ty>) | Array(element: Ty, length: nat)

  /** `project_type`. */
  function Project(ty: Ty, k: Projection): Option<Ty> {
    match (ty, k)
    case (Tuple(elements), TupleField(i)) => if i < |elements| then Some(elements[i]) else None
    case (Struct(fields), Field(i)) => if i < |fields| then Some(fields[i]) else None
    case (Array(element, length), ConstantIndex(i)) => Some(element)
    case (Array(element, _), DynamicIndex) => Some(element)
    case _ => None
  }

  /** `structural_children`: the parts of a tuple or struct. */
  function Parts(ty: Ty): seq<(Projection, Ty)> {
    match ty
    case Tuple(elements) => seq(|elements|, i requires 0 <= i < |elements| => (TupleField(i), elements[i]))
    case Struct(fields) => seq(|fields|, i requires 0 <= i < |fields| => (Field(i), fields[i]))
    case _ => []
  }

  /** Every array has an element. */
  ghost predicate WellSized(ty: Ty) {
    match ty
    case Scalar => true
    case Tuple(elements) => forall t :: t in elements ==> WellSized(t)
    case Struct(fields) => forall t :: t in fields ==> WellSized(t)
    case Array(element, length) => length > 0 && WellSized(element)
  }

  /** The path leads to a leaf: a scalar, or an aggregate without parts. */
  ghost predicate IsLeaf(ty: Ty, p: Path)
    decreases |p|
  {
    match ty
    case Scalar => p == []
    case Array(element, length) =>
      p != [] && p[0].ConstantIndex? && p[0].index < length && IsLeaf(element, p[1..])
    case _ =>
      if Parts(ty) == [] then p == []
      else p != [] && Project(ty, p[0]).Some? && IsLeaf(Project(ty, p[0]).value, p[1..])
  }

  /** The tree has entries only where the type has parts. */
  ghost predicate Conforms(n: Node, ty: Ty) {
    forall k :: k in n.children ==>
      Project(ty, k).Some? && InBounds(ty, k) && Conforms(n.children[k], Project(ty, k).value)
  }

  predicate InBounds(ty: Ty, k: Projection) {
    ty.Array? && k.ConstantIndex? ==> k.index < ty.length
  }

  /** No entry was made through an index only known at run time. */
  ghost predicate NoDynamic(n: Node) {
    forall k :: k in n.children ==> k != DynamicIndex && NoDynamic(n.children[k])
  }

  /** An entry for an unknown index only where the array is initialised as a whole, and then with
      every leaf below it initialised. */
  ghost predicate DynamicsInitialized(n: Node, ty: Ty) {
    && (ty.Array? && DynamicIndex in n.children ==>
          n.transition.Initialized? && LeavesInitialized(n.children[DynamicIndex], ty.element))
    && forall k :: k in n.children && Project(ty, k).Some? ==>
         DynamicsInitialized(n.children[k], Project(ty, k).value)
  }

  // ------------------------------------------------------------------ first_unavailable

  /** `first_unavailable` finds nothing. */
  predicate Available(n: Node, ty: Ty)
    decreases Height(n), ty
  {
    if ty.Array? then
      if n.transition.Initialized? then
        forall k | k in n.children :: Available(n.children[k], ty.element)
      else
        var indices := set k | k in n.children && k.ConstantIndex? && k.index < ty.length;
        && |indices| == ty.length && |indices| == |n.children|
        && forall k | k in n.children :: Available(n.children[k], ty.element)
    else if n.transition.Initialized? then
      forall k | k in n.children :: Available(n.children[k], PartType(ty, k))
    else
      LeafHeight(n.transition);
      Parts(ty) != [] && forall i | 0 <= i < |Parts(ty)| :: Available(Child(n, Parts(ty)[i].0), Parts(ty)[i].1)
  }

  /** The type of a recorded part, the whole type standing in for a part the type does not have. */
  function PartType(ty: Ty, k: Projection): Ty {
    match (ty, k)
    case (Tuple(elements), TupleField(i)) => if i < |elements| then elements[i] else ty
    case (Struct(fields), Field(i)) => if i < |fields| then fields[i] else ty
    case _ => ty
  }

  ghost predicate LeavesInitialized(n: Node, ty: Ty) {
    forall p :: IsLeaf(ty, p) ==> Lookup(n, p).Initialized?
  }

  function Indices(length: nat): (s: set<Projection>)
    ensures |s| == length
    ensures forall k :: k in s <==> k.ConstantIndex? && k.index < length
  {
    if length == 0 then {} else Indices(length - 1) + {ConstantIndex(length - 1)}
  }

  lemma SubsetOfSameSize<T>(a: set<T>, b: set<T>)
    requires a <= b && |a| == |b|
    ensures a == b
  {
    assert b == a + (b - a);
    assert |b - a| == 0;
  }

  /** The entry count test of the array case: one entry for each index and no other entry. */
  lemma AllIndices(n: Node, length: nat)
    ensures var indices := set k | k in n.children && k.ConstantIndex? && k.index < length;
            (|indices| == length && |indices| == |n.children|) <==> n.children.Keys == Indices(length)
  {
    var indices := set k | k in n.children && k.ConstantIndex? && k.index < length;
    assert |n.children| == |n.children.Keys|;
    if |indices| == length && |indices| == |n.children| {
      SubsetOfSameSize(indices, Indices(length));
      SubsetOfSameSize(indices, n.children.Keys);
    }
    if n.children.Keys == Indices(length) {
      assert indices == n.children.Keys;
    }
  }

  /** What stands at a part has the leaves of the whole that lie below the part. */
  lemma PartLeaves(n: Node, ty: Ty, k: Projection)
    requires LeavesInitialized(n, ty) && Project(ty, k).Some? && InBounds(ty, k) && k != DynamicIndex
    ensures LeavesInitialized(Child(n, k), Project(ty, k).value)
  {
    forall p | IsLeaf(Project(ty, k).value, p) ensures Lookup(Child(n, k), p).Initialized? {
      ChildMeaning(n, k, p);
      assert ([k] + p)[1..] == p;
      assert IsLeaf(ty, [k] + p);
    }
  }

  /** Soundness: what is reported available has all its leaves initialised. */
  lemma {:induction false} AvailableSound(n: Node, ty: Ty, p: Path)
    requires Conforms(n, ty) && Available(n, ty) && IsLeaf(ty, p)
    ensures Lookup(n, p).Initialized?
    decreases |p|
  {
    if p != [] {
      var k := p[0];
      assert ty.Array? ==> k in Indices(ty.length);
      if k in n.children {
        AvailablePart(n, ty, k);
        AvailableSound(n.children[k], Project(ty, k).value, p[1..]);
      } else if !n.transition.Initialized? {
        if ty.Array? {
          AllIndices(n, ty.length);
        } else {
          var i := PartIndex(ty, k);
          assert Available(Child(n, Parts(ty)[i].0), Parts(ty)[i].1);
          AvailableSound(Leaf(n.transition), Project(ty, k).value, p[1..]);
          LeafMeaning(n.transition, p[1..]);
        }
      }
    }
  }

  lemma AvailablePart(n: Node, ty: Ty, k: Projection)
    requires Conforms(n, ty) && Available(n, ty) && k in n.children
    ensures Available(n.children[k], Project(ty, k).value) && Conforms(n.children[k], Project(ty, k).value)
  {
    assert Project(ty, k).Some?;
    if !ty.Array? && !n.transition.Initialized? {
      var i := PartIndex(ty, k);
      assert Available(Child(n, Parts(ty)[i].0), Parts(ty)[i].1);
    }
  }

  lemma PartIndex(ty: Ty, k: Projection) returns (i: nat)
    requires !ty.Array? && Project(ty, k).Some?
    ensures i < |Parts(ty)| && Parts(ty)[i] == (k, Project(ty, k).value)
  {
    i := k.index;
  }

  /** Every well-sized type has a leaf. */
  lemma {:induction false} SomeLeaf(ty: Ty) returns (p: Path)
    requires WellSized(ty)
    ensures IsLeaf(ty, p)
  {
    match ty
    case Scalar => p := [];
    case Array(element, length) =>
      var rest := SomeLeaf(element);
      p := [ConstantIndex(0)] + rest;
      assert p[1..] == rest;
    case _ =>
      if Parts(ty) == [] {
        p := [];
      } else {
        var (k, t) := Parts(ty)[0];
        PartSmaller(ty, 0);
        var rest := SomeLeaf(t);
        p := [k] + rest;
        assert p[1..] == rest;
      }
  }

  lemma PartSmaller(ty: Ty, i: nat)
    requires i < |Parts(ty)|
    ensures Parts(ty)[i].1 < ty && Project(ty, Parts(ty)[i].0) == Some(Parts(ty)[i].1)
    ensures WellSized(ty) ==> WellSized(Parts(ty)[i].1)
    ensures Parts(ty)[i].0 != DynamicIndex
  {
  }

  /** Availability is leaf-wise: a type is available exactly when all its leaves are initialised and
      no entry made through an unknown index stands in the way. */
  lemma {:induction false} AvailableExactly(n: Node, ty: Ty)
    requires Conforms(n, ty) && WellSized(ty)
    ensures Available(n, ty) <==> LeavesInitialized(n, ty) && DynamicsInitialized(n, ty)
    decreases Height(n), ty
  {
    if Available(n, ty) {
      forall p | IsLeaf(ty, p) ensures Lookup(n, p).Initialized? {
        AvailableSound(n, ty, p);
      }
      forall k | k in n.children
        ensures DynamicsInitialized(n.children[k], Project(ty, k).value)
        ensures LeavesInitialized(n.children[k], Project(ty, k).value)
      {
        AvailablePart(n, ty, k);
        ProjectWellSized(ty, k);
        AvailableExactly(n.children[k], Project(ty, k).value);
      }
      if ty.Array? {
        AllIndices(n, ty.length);
      }
    }
    if LeavesInitialized(n, ty) && DynamicsInitialized(n, ty) {
      LeavesSuffice(n, ty);
    }
  }

  lemma {:induction false} LeavesSuffice(n: Node, ty: Ty)
    requires Conforms(n, ty) && WellSized(ty) && LeavesInitialized(n, ty) && DynamicsInitialized(n, ty)
    ensures Available(n, ty)
    decreases Height(n), ty, 0
  {
    forall k | k in n.children ensures Available(n.children[k], Project(ty, k).value) {
      if k != DynamicIndex {
        PartLeaves(n, ty, k);
      }
      ProjectWellSized(ty, k);
      AvailableExactly(n.children[k], Project(ty, k).value);
    }
    if !n.transition.Initialized? {
      if ty.Array? {
        EveryIndexPresent(n, ty);
        AllIndices(n, ty.length);
      } else {
        UnavailableWhole(n, ty);
        forall i | 0 <= i < |Parts(ty)| ensures Available(Child(n, Parts(ty)[i].0), Parts(ty)[i].1) {
          PartSmaller(ty, i);
          PartLeaves(n, ty, Parts(ty)[i].0);
          LeafHeight(n.transition);
          AvailableExactly(Child(n, Parts(ty)[i].0), Parts(ty)[i].1);
        }
      }
    }
  }

  /** Without dynamic entries the leaves alone decide. */
  lemma AvailableExact(n: Node, ty: Ty)
    requires Conforms(n, ty) && NoDynamic(n) && WellSized(ty)
    ensures Available(n, ty) <==> LeavesInitialized(n, ty)
  {
    AvailableExactly(n, ty);
    NoDynamicsInTheWay(n, ty);
  }

  lemma {:induction false} NoDynamicsInTheWay(n: Node, ty: Ty)
    requires NoDynamic(n)
    ensures DynamicsInitialized(n, ty)
  {
    forall k | k in n.children && Project(ty, k).Some?
      ensures DynamicsInitialized(n.children[k], Project(ty, k).value)
    {
      NoDynamicsInTheWay(n.children[k], Project(ty, k).value);
    }
  }

  lemma ProjectWellSized(ty: Ty, k: Projection)
    requires WellSized(ty) && Project(ty, k).Some?
    ensures WellSized(Project(ty, k).value)
  {
  }

  lemma UnavailableWhole(n: Node, ty: Ty)
    requires LeavesInitialized(n, ty) && !n.transition.Initialized? && !ty.Array?
    ensures Parts(ty) != []
  {
    assert IsLeaf(ty, []) ==> Lookup(n, []).Initialized?;
  }

  lemma EveryIndexPresent(n: Node, ty: Ty)
    requires Conforms(n, ty) && DynamicIndex !in n.children && WellSized(ty) && ty.Array?
    requires LeavesInitialized(n, ty) && !n.transition.Initialized?
    ensures n.children.Keys == Indices(ty.length)
  {
    forall k | k in Indices(ty.length) ensures k in n.children {
      var p := SomeLeaf(ty.element);
      PartLeaves(n, ty, k);
      assert Lookup(Child(n, k), p).Initialized?;
      if k !in n.children {
        LeafMeaning(n.transition, p);
      }
    }
    forall k | k in n.children ensures k in Indices(ty.length) {
    }
  }

  // ------------------------------------------------------------------ unavailable_cause

  /** The place is well-typed in a root of type `ty`. */
  ghost predicate ValidPath(ty: Ty, p: Path)
    decreases |p|
  {
    p == [] || (Project(ty, p[0]).Some? && InBounds(ty, p[0]) && ValidPath(Project(ty, p[0]).value, p[1..]))
  }

  /** The type of a valid place. */
  ghost function TypeAt(ty: Ty, p: Path): Ty
    requires ValidPath(ty, p)
    decreases |p|
  {
    if p == [] then ty else TypeAt(Project(ty, p[0]).value, p[1..])
  }

  /** The part of a place before its first dynamic index. */
  function Base(p: Path): Path {
    if p == [] || p[0] == DynamicIndex then [] else [p[0]] + Base(p[1..])
  }

  /** `unavailable_cause` finds nothing: a dynamic index needs the whole array. */
  predicate PlaceAvailable(n: Node, ty: Ty, p: Path)
    decreases |p|
  {
    if p == [] || p[0] == DynamicIndex then Available(n, ty)
    else PlaceAvailable(Child(n, p[0]), if Project(ty, p[0]).Some? then Project(ty, p[0]).value else ty, p[1..])
  }

  lemma {:induction false} BaseValid(ty: Ty, p: Path)
    requires ValidPath(ty, p)
    ensures ValidPath(ty, Base(p)) && Base(p) <= p
    ensures DynamicIndex !in Base(p)
    decreases |p|
  {
    if p != [] && p[0] != DynamicIndex {
      BaseValid(Project(ty, p[0]).value, p[1..]);
      assert Base(p)[1..] == Base(p[1..]);
      assert p == [p[0]] + p[1..];
    }
  }

  /** The tree that stands at a place. */
  function NodeAt(n: Node, p: Path): Node
    decreases |p|
  {
    if p == [] then n else NodeAt(Child(n, p[0]), p[1..])
  }

  lemma {:induction false} NodeAtMeaning(n: Node, p: Path, q: Path)
    ensures Lookup(n, p + q) == Lookup(NodeAt(n, p), q)
    decreases |p|
  {
    if p == [] {
      assert p + q == q;
    } else {
      assert p + q == [p[0]] + (p[1..] + q);
      ChildMeaning(n, p[0], p[1..] + q);
      NodeAtMeaning(Child(n, p[0]), p[1..], q);
    }
  }

  /** The checker looks at the whole of the place, or of the array it indexes. */
  lemma {:induction false} PlaceIsNode(n: Node, ty: Ty, p: Path)
    requires ValidPath(ty, p) && ValidPath(ty, Base(p)) && Conforms(n, ty) && WellSized(ty)
    ensures PlaceAvailable(n, ty, p) == Available(NodeAt(n, Base(p)), TypeAt(ty, Base(p)))
    ensures Conforms(NodeAt(n, Base(p)), TypeAt(ty, Base(p))) && WellSized(TypeAt(ty, Base(p)))
    ensures NoDynamic(n) ==> NoDynamic(NodeAt(n, Base(p)))
    decreases |p|
  {
    if Base(p) != [] {
      var k, rest := p[0], p[1..];
      assert Base(p)[1..] == Base(rest);
      ProjectWellSized(ty, k);
      PlaceIsNode(Child(n, k), Project(ty, k).value, rest);
    }
  }

  /** A use is allowed exactly when every leaf of its place, or of the array it indexes, is
      initialised and no dynamic entry below stands in the way. */
  lemma PlaceAvailableExact(n: Node, ty: Ty, p: Path)
    requires ValidPath(ty, p) && ValidPath(ty, Base(p)) && Conforms(n, ty) && WellSized(ty)
    ensures PlaceAvailable(n, ty, p) <==>
              && (forall q :: IsLeaf(TypeAt(ty, Base(p)), q) ==> Lookup(n, Base(p) + q).Initialized?)
              && DynamicsInitialized(NodeAt(n, Base(p)), TypeAt(ty, Base(p)))
    ensures NoDynamic(n) ==> DynamicsInitialized(NodeAt(n, Base(p)), TypeAt(ty, Base(p)))
  {
    var m, t := NodeAt(n, Base(p)), TypeAt(ty, Base(p));
    PlaceIsNode(n, ty, p);
    AvailableExactly(m, t);
    forall q ensures Lookup(n, Base(p) + q) == Lookup(m, q) {
      NodeAtMeaning(n, Base(p), q);
    }
    if NoDynamic(n) {
      NoDynamicsInTheWay(m, t);
    }
  }

  /** Why the converse needs trees without dynamic entries: after `let a: [T; 1]; a[i] = x; a[0] = y`
      every leaf of `a` is initialised and the checker still refuses `a`. */
  lemma DynamicEntryBlocks()
    ensures var n := Set(Set(Leaf(Uninitialized(0)), [DynamicIndex], Initialized(1)), [ConstantIndex(0)],
                         Initialized(2));
            && Conforms(n, Array(Scalar, 1)) && LeavesInitialized(n, Array(Scalar, 1))
            && !Available(n, Array(Scalar, 1))
  {
    var n := Set(Set(Leaf(Uninitialized(0)), [DynamicIndex], Initialized(1)), [ConstantIndex(0)], Initialized(2));
    assert n.children[DynamicIndex] == Leaf(Initialized(1));
    assert n.children[ConstantIndex(0)] == Leaf(Initialized(2));
    AllIndices(n, 1);
    assert DynamicIndex in n.children.Keys && DynamicIndex !in Indices(1);
    forall p | IsLeaf(Array(Scalar, 1), p) ensures Lookup(n, p).Initialized? {
      assert p[0] == ConstantIndex(0);
    }
  }

  // ------------------------------------------------------------------ refilling

  ghost predicate Named(pieces: seq<(Projection, Ty)>, k: Projection) {
    exists i :: 0 <= i < |pieces| && pieces[i].0 == k
  }

  /** What an aggregate is refilled by: its parts, or one element for each index. */
  function Pieces(ty: Ty): (r: seq<(Projection, Ty)>)
    ensures forall k :: Named(r, k) <==> Project(ty, k).Some? && InBounds(ty, k) && k != DynamicIndex
  {
    var r := if ty.Array? then seq(ty.length, i requires 0 <= i < ty.length => (ConstantIndex(i), ty.element))
             else Parts(ty);
    assert forall k :: Project(ty, k).Some? && InBounds(ty, k) && k != DynamicIndex ==>
             k.index < |r| && r[k.index].0 == k;
    r
  }

  /** Initialising every piece of an aggregate, one assignment each. */
  function Refill(n: Node, pieces: seq<(Projection, Ty)>, span: nat): Node {
    if pieces == [] then n
    else Set(Refill(n, pieces[..|pieces| - 1], span), [pieces[|pieces| - 1].0], Initialized(span))
  }

  lemma {:induction false} RefillMeaning(n: Node, pieces: seq<(Projection, Ty)>, span: nat, i: nat, q: Path)
    requires i < |pieces|
    ensures Lookup(Refill(n, pieces, span), [pieces[i].0] + q) == Initialized(span)
  {
    var last := |pieces| - 1;
    var path := [pieces[i].0] + q;
    SetMeaning(Refill(n, pieces[..last], span), [pieces[last].0], Initialized(span), path);
    if i < last {
      RefillMeaning(n, pieces[..last], span, i, q);
    } else {
      assert [pieces[last].0] <= path;
    }
  }

  lemma SetOne(n: Node, k: Projection, t: Transition)
    ensures Set(n, [k], t) == Node(n.transition, n.children[k := Leaf(t)])
  {
    assert [k][1..] == [];
  }

  /** Refilling replaces the entries of the pieces and leaves the others. */
  lemma {:induction false} RefillEntries(n: Node, pieces: seq<(Projection, Ty)>, span: nat)
    ensures var m := Refill(n, pieces, span);
            && m.transition == n.transition
            && forall k :: (k in m.children <==> Named(pieces, k) || k in n.children)
                 && (k in m.children ==>
                       m.children[k] == if Named(pieces, k) then Leaf(Initialized(span)) else n.children[k])
  {
    if pieces != [] {
      var front, last := pieces[..|pieces| - 1], pieces[|pieces| - 1];
      RefillEntries(n, front, span);
      SetOne(Refill(n, front, span), last.0, Initialized(span));
      forall k ensures Named(pieces, k) <==> Named(front, k) || k == last.0 {
        if Named(front, k) {
          var i :| 0 <= i < |front| && front[i].0 == k;
          assert pieces[i].0 == k;
        }
        if k == last.0 {
          assert pieces[|pieces| - 1].0 == k;
        }
      }
    }
  }

  /** A moved aggregate is available again once each of its pieces has been refilled, except that an
      array needs every entry made through an unknown index to be available by itself. */
  lemma RefillRestores(n: Node, ty: Ty, span: nat)
    requires Pieces(ty) != []
    ensures LeavesInitialized(Refill(n, Pieces(ty), span), ty)
    ensures Conforms(n, ty) ==>
              (Available(Refill(n, Pieces(ty), span), ty) <==>
                 (DynamicIndex in n.children ==>
                    n.transition.Initialized? && Available(n.children[DynamicIndex], ty.element)))
  {
    hide Available, Refill, LeavesInitialized, Named, Pieces;
    RefilledLeaves(n, ty, span);
    if Conforms(n, ty) {
      var m := Refill(n, Pieces(ty), span);
      RefillEntries(n, Pieces(ty), span);
      if ty.Array? {
        RefilledArray(n, m, ty, span);
      } else {
        RefilledParts(n, m, ty, span);
      }
    }
  }

  lemma RefilledLeaves(n: Node, ty: Ty, span: nat)
    requires Pieces(ty) != []
    ensures LeavesInitialized(Refill(n, Pieces(ty), span), ty)
  {
    hide Refill;
    forall p | IsLeaf(ty, p) ensures Lookup(Refill(n, Pieces(ty), span), p).Initialized? {
      assert p != [] && p == [p[0]] + p[1..];
      assert Named(Pieces(ty), p[0]);
      var i :| 0 <= i < |Pieces(ty)| && Pieces(ty)[i].0 == p[0];
      RefillMeaning(n, Pieces(ty), span, i, p[1..]);
    }
  }

  /** `m` is `n` with an initialised entry for every piece of `ty`. */
  ghost predicate Refilled(n: Node, m: Node, ty: Ty, span: nat) {
    && m.transition == n.transition
    && forall k :: (k in m.children <==> Named(Pieces(ty), k) || k in n.children)
         && (k in m.children ==>
               m.children[k] == if Named(Pieces(ty), k) then Leaf(Initialized(span)) else n.children[k])
  }

  lemma RefilledParts(n: Node, m: Node, ty: Ty, span: nat)
    requires !ty.Array? && Pieces(ty) != [] && Conforms(n, ty) && Refilled(n, m, ty, span)
    ensures Available(m, ty) && DynamicIndex !in n.children
  {
    hide Named;
    forall i | 0 <= i < |Parts(ty)| ensures Child(m, Parts(ty)[i].0) == Leaf(Initialized(span)) {
      PartSmaller(ty, i);
    }
    forall k | k in m.children ensures m.children[k] == Leaf(Initialized(span)) {
      assert k in n.children ==> Project(ty, k).Some?;
    }
  }

  lemma RefilledArray(n: Node, m: Node, ty: Ty, span: nat)
    requires ty.Array? && Conforms(n, ty) && Refilled(n, m, ty, span)
    ensures Available(m, ty) <==>
              (DynamicIndex in n.children ==>
                 n.transition.Initialized? && Available(n.children[DynamicIndex], ty.element))
  {
    hide Named, Available;
    RefilledKeys(n, m, ty, span);
    ArrayAvailable(m, ty);
    forall k | k in Indices(ty.length) ensures Available(m.children[k], ty.element) {
      LeafAvailable(span, ty.element);
    }
    if DynamicIndex in n.children {
      assert DynamicIndex in m.children.Keys;
    } else {
      assert m.children.Keys == Indices(ty.length);
    }
  }

  lemma RefilledKeys(n: Node, m: Node, ty: Ty, span: nat)
    requires ty.Array? && Conforms(n, ty) && Refilled(n, m, ty, span)
    ensures forall k :: k in m.children <==> k in Indices(ty.length) || (k == DynamicIndex && k in n.children)
    ensures forall k :: k in Indices(ty.length) ==> m.children[k] == Leaf(Initialized(span))
    ensures DynamicIndex in n.children ==> m.children[DynamicIndex] == n.children[DynamicIndex]
  {
    hide Named;
    forall k | k in n.children ensures k in Indices(ty.length) || k == DynamicIndex {
      assert Project(ty, k).Some?;
    }
  }

  lemma LeafAvailable(span: nat, ty: Ty)
    ensures Available(Leaf(Initialized(span)), ty)
  {
  }

  /** The array case of the availability test. */
  lemma ArrayAvailable(n: Node, ty: Ty)
    requires ty.Array?
    ensures Available(n, ty) <==>
              && (n.transition.Initialized? || n.children.Keys == Indices(ty.length))
              && forall k :: k in n.children ==> Available(n.children[k], ty.element)
  {
    AllIndices(n, ty.length);
  }
}
