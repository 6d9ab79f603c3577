/** Directed multigraphs given by successor lists, the owning-edge graph of the heap being one.

    Vertices are the indices of the sequence.  An edge may occur several times; multiplicity
    matters, because every owning edge contributes one unit to its target's owner count.
 */
module Graph {

  type Graph = seq<seq<nat>>

  /** Every edge ends at a vertex. */
  ghost predicate WellFormed(g: Graph) {
    forall v, w {:trigger w in g[v]} :: 0 <= v < |g| && w in g[v] ==> w < |g|
  }

  /** The naturals below `n`. */
  ghost function Below(n: nat): (s: set<nat>)
    ensures forall v: nat :: v in s <==> v < n
    ensures |s| == n
  {
    if n == 0 then {} else Below(n - 1) + {n - 1}
  }

  /** All vertices of the graph. */
  ghost function Vertices(g: Graph): set<nat> {
    Below(|g|)
  }

  // ------------------------------------------------------------------ reachability

  ghost predicate IsPath(g: Graph, p: seq<nat>) {
    && 0 < |p|
    && (forall i :: 0 <= i < |p| ==> p[i] < |g|)
    && (forall i :: 0 <= i < |p| - 1 ==> p[i + 1] in g[p[i]])
  }

  ghost predicate PathFromTo(g: Graph, from: set<nat>, p: seq<nat>, v: nat) {
    IsPath(g, p) && p[0] in from && p[|p| - 1] == v
  }

  /** `v` can be reached along edges from some member of `from`. */
  ghost predicate Reach(g: Graph, from: set<nat>, v: nat) {
    exists p :: PathFromTo(g, from, p, v)
  }

  /** A set no edge leaves. */
  ghost predicate Closed(g: Graph, s: set<nat>) {
    forall v, w {:trigger w in g[v]} :: v in s && v < |g| && w in g[v] ==> w in s
  }

  lemma ReachSource(g: Graph, from: set<nat>, v: nat)
    requires v in from && v < |g|
    ensures Reach(g, from, v)
  {
    assert PathFromTo(g, from, [v], v);
  }

  lemma ReachStep(g: Graph, from: set<nat>, v: nat, w: nat)
    requires Reach(g, from, v) && w in g[v] && w < |g|
    ensures Reach(g, from, w)
  {
    var p :| PathFromTo(g, from, p, v);
    assert PathFromTo(g, from, p + [w], w);
  }

  lemma {:induction false} PathStaysInside(g: Graph, p: seq<nat>, s: set<nat>, i: nat)
    requires IsPath(g, p) && p[0] in s && Closed(g, s) && i < |p|
    ensures p[i] in s
  {
    if i != 0 {
      PathStaysInside(g, p, s, i - 1);
      assert p[i - 1 + 1] in g[p[i - 1]];
    }
  }

  /** What is reachable from inside a closed set is inside it. */
  lemma ReachInsideClosed(g: Graph, from: set<nat>, s: set<nat>, v: nat)
    requires Reach(g, from, v) && from <= s && Closed(g, s)
    ensures v in s
  {
    var p :| PathFromTo(g, from, p, v);
    PathStaysInside(g, p, s, |p| - 1);
  }

  /** The vertices reachable from `from`. */
  ghost function ReachSet(g: Graph, from: set<nat>): set<nat> {
    set v | v in Vertices(g) && Reach(g, from, v)
  }

  lemma ReachSetClosed(g: Graph, from: set<nat>)
    requires WellFormed(g)
    ensures Closed(g, ReachSet(g, from))
    ensures forall v :: v in from && v < |g| ==> v in ReachSet(g, from)
  {
    forall v, w | v in ReachSet(g, from) && v < |g| && w in g[v]
      ensures w in ReachSet(g, from)
    {
      ReachStep(g, from, v, w);
    }
    forall v | v in from && v < |g| ensures v in ReachSet(g, from) {
      ReachSource(g, from, v);
    }
  }

  /** Reachability is transitive, and monotone in the set it starts from. */
  lemma ReachTransitive(g: Graph, from: set<nat>, mid: set<nat>, v: nat)
    requires WellFormed(g)
    requires Reach(g, mid, v)
    requires forall m :: m in mid && m < |g| ==> Reach(g, from, m)
    ensures Reach(g, from, v)
  {
    var p :| PathFromTo(g, mid, p, v);
    ReachSetClosed(g, from);
    PathStaysInside(g, p, ReachSet(g, from), |p| - 1);
  }

  /** A vertex reachable from a set is reachable from a single member of it. */
  lemma ReachWitness(g: Graph, from: set<nat>, v: nat) returns (s: nat)
    requires Reach(g, from, v)
    ensures s in from && s < |g| && Reach(g, {s}, v)
  {
    var p :| PathFromTo(g, from, p, v);
    s := p[0];
    assert PathFromTo(g, {s}, p, v);
  }

  /** A reachable vertex is a source or the target of an edge from a reachable vertex. */
  lemma ReachPredecessor(g: Graph, from: set<nat>, v: nat) returns (u: nat)
    requires Reach(g, from, v) && v !in from
    ensures u < |g| && Reach(g, from, u) && v in g[u]
  {
    var p :| PathFromTo(g, from, p, v);
    u := p[|p| - 2];
    assert p[|p| - 2 + 1] in g[p[|p| - 2]];
    assert PathFromTo(g, from, p[..|p| - 1], u);
  }

  /** `g2` keeps every edge that leaves a member of `s`. */
  ghost predicate AgreesOn(g: Graph, g2: Graph, s: set<nat>) {
    |g| <= |g2| && forall v :: v in s && v < |g| ==> g2[v] == g[v]
  }

  /** Paths inside a closed set survive any change to the graph outside it. */
  lemma ReachTransfers(g: Graph, g2: Graph, from: set<nat>, s: set<nat>, v: nat)
    requires Reach(g, from, v) && from <= s && Closed(g, s) && AgreesOn(g, g2, s)
    ensures Reach(g2, from, v)
  {
    var p :| PathFromTo(g, from, p, v);
    forall i | 0 <= i < |p| - 1 ensures p[i + 1] in g2[p[i]] {
      PathStaysInside(g, p, s, i);
    }
    assert PathFromTo(g2, from, p, v);
  }

  /** Adding edges adds paths. */
  lemma ReachMonotone(g: Graph, g2: Graph, from: set<nat>, v: nat)
    requires Reach(g, from, v)
    requires |g| <= |g2| && forall u, w :: 0 <= u < |g| && w in g[u] ==> w in g2[u]
    ensures Reach(g2, from, v)
  {
    var p :| PathFromTo(g, from, p, v);
    assert PathFromTo(g2, from, p, v);
  }

  lemma SourcesMonotone(g: Graph, from: set<nat>, from2: set<nat>, v: nat)
    requires Reach(g, from, v) && from <= from2
    ensures Reach(g, from2, v)
  {
    var p :| PathFromTo(g, from, p, v);
    assert PathFromTo(g, from2, p, v);
  }

  /** Some edge of `b` starts a path back to `b`. */
  ghost predicate OnCycle(g: Graph, b: nat)
    requires b < |g|
  {
    exists w :: w in g[b] && Reach(g, {w}, b)
  }

  lemma TailIsPath(g: Graph, p: seq<nat>)
    requires IsPath(g, p) && |p| > 1
    ensures IsPath(g, p[1..]) && p[1] in g[p[0]]
  {
    var q := p[1..];
    assert p[0 + 1] in g[p[0]];
    forall i | 0 <= i < |q| - 1 ensures q[i + 1] in g[q[i]] {
      assert p[i + 1 + 1] in g[p[i + 1]];
    }
  }

  /** If `b` reaches one of its owners, it is on a cycle. */
  lemma CycleThrough(g: Graph, b: nat, y: nat)
    requires WellFormed(g) && b < |g| && y < |g| && Reach(g, {b}, y) && b in g[y]
    ensures OnCycle(g, b)
  {
    var p :| PathFromTo(g, {b}, p, y);
    if |p| == 1 {
      ReachSource(g, {b}, b);
    } else {
      TailIsPath(g, p);
      assert PathFromTo(g, {p[1]}, p[1..], y);
      ReachStep(g, {p[1]}, y, b);
    }
  }

  /** `g2` is `g` without the edges of `b`, a vertex no edge leads to. */
  ghost predicate Removed(g: Graph, g2: Graph, b: nat) {
    && |g2| == |g| && b < |g|
    && (forall x {:trigger g[x]} :: 0 <= x < |g| ==> b !in g[x])
    && (forall x {:trigger g2[x]} :: 0 <= x < |g| ==> g2[x] == if x == b then [] else g[x])
  }

  /** A path that starts elsewhere never meets a vertex without owners, so it survives. */
  lemma PathAvoids(g: Graph, g2: Graph, b: nat, p: seq<nat>)
    requires IsPath(g, p) && p[0] != b && Removed(g, g2, b)
    ensures IsPath(g2, p)
  {
    forall i | 0 <= i < |p| ensures p[i] != b {
      if i > 0 {
        assert p[i - 1 + 1] in g[p[i - 1]];
      }
    }
    forall i | 0 <= i < |p| - 1 ensures p[i + 1] in g2[p[i]] {
    }
  }

  lemma ReachAvoids(g: Graph, g2: Graph, b: nat, from: set<nat>, v: nat)
    requires Reach(g, from, v) && b !in from && Removed(g, g2, b)
    ensures Reach(g2, from, v)
  {
    var p :| PathFromTo(g, from, p, v);
    PathAvoids(g, g2, b, p);
    assert PathFromTo(g2, from, p, v);
  }

  /** Once `b` is gone, its successors stand in for it as sources. */
  lemma ReachViaSuccessors(g: Graph, g2: Graph, b: nat, from: set<nat>, from2: set<nat>, v: nat)
    requires Reach(g, from, v) && v != b && Removed(g, g2, b)
    requires forall s :: s in from && s != b ==> s in from2
    requires forall w :: w in g[b] ==> w in from2
    ensures Reach(g2, from2, v)
  {
    var p :| PathFromTo(g, from, p, v);
    if p[0] == b {
      TailIsPath(g, p);
      PathAvoids(g, g2, b, p[1..]);
      assert PathFromTo(g2, from2, p[1..], v);
    } else {
      PathAvoids(g, g2, b, p);
      assert PathFromTo(g2, from2, p, v);
    }
  }

  /** A vertex that has an owner `y` and is on no cycle is still reached from `from`, if
      everything `y` may be reached from is in `from` or is the vertex itself. */
  lemma ReachViaOwner(g: Graph, from: set<nat>, b: nat, y: nat)
    requires WellFormed(g) && b < |g| && y < |g| && b in g[y] && !OnCycle(g, b)
    requires Reach(g, from + {b}, y)
    ensures Reach(g, from, b)
  {
    var t := ReachWitness(g, from + {b}, y);
    if t !in from {
      CycleThrough(g, b, y);
    } else {
      SourcesMonotone(g, {t}, from, y);
      ReachStep(g, from, y, b);
    }
  }

  // ------------------------------------------------------------------ edge multisets

  /** The targets of the edges leaving members of `s` among the first `n` vertices. */
  ghost function EdgesUpTo(g: Graph, s: set<nat>, n: nat): multiset<nat>
    requires n <= |g|
  {
    if n == 0 then multiset{}
    else EdgesUpTo(g, s, n - 1) + (if n - 1 in s then multiset(g[n - 1]) else multiset{})
  }

  /** The targets, with multiplicity, of the edges leaving members of `s`. */
  ghost function EdgesFrom(g: Graph, s: set<nat>): multiset<nat> {
    EdgesUpTo(g, s, |g|)
  }

  /** The targets, with multiplicity, of all edges. */
  ghost function Edges(g: Graph): multiset<nat> {
    EdgesFrom(g, Vertices(g))
  }

  lemma {:induction false} EdgesUpToPlus(g: Graph, s: set<nat>, t: set<nat>, n: nat)
    requires n <= |g| && s !! t
    ensures EdgesUpTo(g, s + t, n) == EdgesUpTo(g, s, n) + EdgesUpTo(g, t, n)
  {
    if n != 0 {
      EdgesUpToPlus(g, s, t, n - 1);
    }
  }

  lemma {:induction false} EdgesUpToEmpty(g: Graph, s: set<nat>, n: nat)
    requires n <= |g|
    requires forall v :: v in s && v < n ==> g[v] == []
    ensures EdgesUpTo(g, s, n) == multiset{}
  {
    if n != 0 {
      EdgesUpToEmpty(g, s, n - 1);
    }
  }

  lemma {:induction false} EdgesUpToSingleton(g: Graph, v: nat, n: nat)
    requires n <= |g|
    ensures EdgesUpTo(g, {v}, n) == if v < n then multiset(g[v]) else multiset{}
  {
    if n != 0 {
      EdgesUpToSingleton(g, v, n - 1);
    }
  }

  /** The edges leaving a set split over any partition of it. */
  lemma EdgesSplit(g: Graph, s: set<nat>, t: set<nat>)
    requires s !! t
    ensures EdgesFrom(g, s + t) == EdgesFrom(g, s) + EdgesFrom(g, t)
  {
    EdgesUpToPlus(g, s, t, |g|);
  }

  lemma EdgesAdd(g: Graph, s: set<nat>, v: nat)
    requires v < |g| && v !in s
    ensures EdgesFrom(g, s + {v}) == EdgesFrom(g, s) + multiset(g[v])
  {
    EdgesSplit(g, s, {v});
    EdgesUpToSingleton(g, v, |g|);
  }

  lemma EdgesNone(g: Graph)
    ensures EdgesFrom(g, {}) == multiset{}
  {
    EdgesUpToEmpty(g, {}, |g|);
  }

  lemma {:induction false} EdgesUpToMember(g: Graph, s: set<nat>, n: nat, w: nat)
    requires n <= |g|
    ensures w in EdgesUpTo(g, s, n) <==> exists v :: 0 <= v < n && v in s && w in g[v]
  {
    if n != 0 {
      EdgesUpToMember(g, s, n - 1, w);
    }
  }

  /** A vertex has an edge from `s` exactly when some member of `s` lists it. */
  lemma EdgesMember(g: Graph, s: set<nat>, w: nat)
    ensures w in EdgesFrom(g, s) <==> exists v :: 0 <= v < |g| && v in s && w in g[v]
  {
    EdgesUpToMember(g, s, |g|, w);
  }

  lemma {:induction false} EdgesUpToAgree(g: Graph, g2: Graph, s: set<nat>, n: nat)
    requires n <= |g| && n <= |g2|
    requires forall v :: v in s && v < n ==> g[v] == g2[v]
    ensures EdgesUpTo(g, s, n) == EdgesUpTo(g2, s, n)
  {
    if n != 0 {
      EdgesUpToAgree(g, g2, s, n - 1);
    }
  }

  lemma EdgesAgree(g: Graph, g2: Graph, s: set<nat>)
    requires |g| == |g2|
    requires forall v :: v in s && v < |g| ==> g[v] == g2[v]
    ensures EdgesFrom(g, s) == EdgesFrom(g2, s)
  {
    EdgesUpToAgree(g, g2, s, |g|);
  }

  lemma {:induction false} EdgesUpToRestrict(g: Graph, s: set<nat>, t: set<nat>, n: nat)
    requires n <= |g|
    requires forall v :: 0 <= v < n ==> (v in s <==> v in t)
    ensures EdgesUpTo(g, s, n) == EdgesUpTo(g, t, n)
  {
    if n != 0 {
      EdgesUpToRestrict(g, s, t, n - 1);
    }
  }

  /** Emptying the successor lists of `s` removes exactly the edges that left `s`. */
  lemma EdgesCut(g: Graph, g2: Graph, s: set<nat>)
    requires |g| == |g2| && s <= Vertices(g)
    requires forall v :: 0 <= v < |g| ==> g2[v] == if v in s then [] else g[v]
    ensures Edges(g) == Edges(g2) + EdgesFrom(g, s)
    ensures Edges(g2) == EdgesFrom(g, Vertices(g) - s)
  {
    var rest := Vertices(g) - s;
    assert rest + s == Vertices(g);
    EdgesSplit(g, rest, s);
    EdgesSplit(g2, rest, s);
    EdgesAgree(g, g2, rest);
    EdgesUpToEmpty(g2, s, |g|);
    assert Vertices(g2) == Vertices(g);
  }

  lemma EdgesCutOne(g: Graph, g2: Graph, b: nat)
    requires |g2| == |g| && b < |g|
    requires forall x {:trigger g2[x]} :: 0 <= x < |g| ==> g2[x] == if x == b then [] else g[x]
    ensures Edges(g) == Edges(g2) + multiset(g[b])
  {
    EdgesCut(g, g2, {b});
    EdgesNone(g);
    assert {} + {b} == {b};
    EdgesAdd(g, {}, b);
  }

  /** `g2` is `g` with one more edge from `v` to `w`. */
  ghost predicate OneMoreEdge(g: Graph, g2: Graph, v: nat, w: nat) {
    && |g2| == |g| && v < |g|
    && (forall u {:trigger g2[u]} :: 0 <= u < |g| && u != v ==> g2[u] == g[u])
    && multiset(g2[v]) == multiset(g[v]) + multiset{w}
  }

  lemma EdgesAppend(g: Graph, g2: Graph, v: nat, w: nat)
    requires OneMoreEdge(g, g2, v, w)
    ensures Edges(g2) == Edges(g) + multiset{w}
  {
    var rest := Vertices(g) - {v};
    assert rest + {v} == Vertices(g) && Vertices(g2) == Vertices(g);
    EdgesAdd(g, rest, v);
    EdgesAdd(g2, rest, v);
    EdgesAgree(g, g2, rest);
  }

  lemma OneMoreEdgeMembers(g: Graph, g2: Graph, v: nat, w: nat, u: nat, x: nat)
    requires OneMoreEdge(g, g2, v, w) && u < |g|
    ensures x in g2[u] <==> x in g[u] || (u == v && x == w)
  {
    if u == v {
      assert x in g2[v] <==> x in multiset(g2[v]);
      assert x in g[v] <==> x in multiset(g[v]);
    }
  }

  /** An added edge brings nothing beyond what its target already gave. */
  lemma ReachOneMore(g: Graph, g2: Graph, v: nat, w: nat, from: set<nat>, u: nat)
    requires OneMoreEdge(g, g2, v, w) && WellFormed(g) && w < |g|
    ensures Reach(g, from, u) ==> Reach(g2, from, u)
    ensures Reach(g2, from, u) ==> Reach(g, from + {w}, u)
    ensures Reach(g2, from, u) && !Reach(g, from, v) ==> Reach(g, from, u)
    ensures Reach(g, from, v) ==> Reach(g2, from, w)
  {
    forall a, x ensures 0 <= a < |g| && x in g[a] ==> x in g2[a] {
      if 0 <= a < |g| && x in g[a] {
        OneMoreEdgeMembers(g, g2, v, w, a, x);
      }
    }
    if Reach(g, from, u) {
      ReachMonotone(g, g2, from, u);
    }
    if Reach(g, from, v) {
      ReachMonotone(g, g2, from, v);
      OneMoreEdgeMembers(g, g2, v, w, v, w);
      ReachStep(g2, from, v, w);
    }
    if Reach(g2, from, u) {
      OneMoreClosed(g, g2, v, w, from + {w});
      var p :| PathFromTo(g2, from, p, u);
      PathStaysInside(g2, p, ReachSet(g, from + {w}), |p| - 1);
      if !Reach(g, from, v) {
        OneMoreClosed(g, g2, v, w, from);
        PathStaysInside(g2, p, ReachSet(g, from), |p| - 1);
      }
    }
  }

  lemma OneMoreClosed(g: Graph, g2: Graph, v: nat, w: nat, from: set<nat>)
    requires OneMoreEdge(g, g2, v, w) && WellFormed(g) && w < |g|
    requires w in from || !Reach(g, from, v)
    ensures Closed(g2, ReachSet(g, from))
    ensures forall s :: s in from && s < |g| ==> s in ReachSet(g, from)
  {
    ReachSetClosed(g, from);
    forall a, x {:trigger x in g2[a]} | a in ReachSet(g, from) && a < |g2| && x in g2[a]
      ensures x in ReachSet(g, from)
    {
      OneMoreEdgeMembers(g, g2, v, w, a, x);
    }
  }

  /** Adding isolated vertices adds no edge. */
  lemma EdgesExtend(g: Graph, g2: Graph)
    requires |g| <= |g2|
    requires forall v :: 0 <= v < |g2| ==> g2[v] == if v < |g| then g[v] else []
    ensures Edges(g2) == Edges(g)
  {
    var s := Vertices(g2) - Vertices(g);
    assert Vertices(g) + s == Vertices(g2);
    EdgesSplit(g2, Vertices(g), s);
    EdgesUpToEmpty(g2, s, |g2|);
    EdgesUpToAgree(g, g2, Vertices(g), |g|);
    EdgesUpToTail(g2, Vertices(g), |g|, |g2|);
  }

  lemma {:induction false} EdgesUpToTail(g: Graph, s: set<nat>, m: nat, n: nat)
    requires m <= n <= |g|
    requires forall v :: m <= v < n ==> v !in s
    ensures EdgesUpTo(g, s, n) == EdgesUpTo(g, s, m)
  {
    if m < n {
      EdgesUpToTail(g, s, m, n - 1);
    }
  }

  // ------------------------------------------------------------------ supported sets

  /** Every member of `s` is held from outside the graph or owned by a member of `s`. */
  ghost predicate Supported(g: Graph, held: set<nat>, s: set<nat>) {
    forall v :: v in s ==> v < |g| && (v in held || exists u :: u in s && u < |g| && v in g[u])
  }

  /** The reachable vertices support themselves. */
  lemma ReachableIsSupported(g: Graph, held: set<nat>)
    requires WellFormed(g)
    ensures Supported(g, held, ReachSet(g, held))
  {
    forall v | v in ReachSet(g, held) && v !in held
      ensures exists u :: u in ReachSet(g, held) && u < |g| && v in g[u]
    {
      var u := ReachPredecessor(g, held, v);
      assert u in ReachSet(g, held);
    }
  }
}
