/** Why trial deletion is right (experiments/genref/genref.c:406-527).

    `s` is the candidate subgraph: everything reachable from the filtered candidates.  A vertex of
    `s` is held from outside when its owner count exceeds the number of edges to it from `s`.  The
    scan leaves white exactly the vertices of `s` that nothing held from outside reaches.
 */
module HeapCollect {
  import opened Graph
  import opened HeapSnapshot
  import opened HeapState
  import opened Wrappers

  /** Headers that differ in colour and trial count only. */
  ghost predicate SameButMarks(hs: Headers, hs2: Headers) {
    && |hs| == |hs2|
    && forall b :: 0 <= b < |hs| ==> hs2[b] == hs[b].(color := hs2[b].color, trial := hs2[b].trial)
  }

  /** Owners of `b` that are not edges from `s`. */
  ghost function Outer(hs: Headers, s: set<nat>, b: nat): int
    requires b < |hs|
  {
    hs[b].owners - EdgesFrom(GraphOf(hs), s)[b]
  }

  /** The members of `s` held from outside `s`. */
  ghost function HeldOutside(hs: Headers, s: set<nat>): set<nat> {
    set b | b in s && b < |hs| && Outer(hs, s, b) > 0
  }

  /** A candidate subgraph: live objects, closed under owning edges. */
  ghost predicate Subgraph(hs: Headers, s: set<nat>) {
    s <= LiveSet(hs) && Closed(GraphOf(hs), s)
  }

  // ------------------------------------------------------------------ what the scan computes

  ghost function Colored(hs: Headers, s: set<nat>, color: Color): set<nat> {
    set b | b in s && b < |hs| && hs[b].color == color
  }

  /** Between two steps of the scan that started from `hs0`; `done` are the black vertices whose
      children have been restored. */
  ghost predicate Scanning(hs0: Headers, hs: Headers, s: set<nat>, done: set<nat>) {
    && SameButMarks(hs0, hs) && s <= Below(|hs|)
    && (forall b :: 0 <= b < |hs| && b !in s ==> hs[b] == hs0[b])
    && (forall b :: b in s ==> hs[b].color != Purple)
    && done <= Colored(hs, s, Black)
    && (forall b, w {:trigger w in GraphOf(hs0)[b]} :: b in done && w in GraphOf(hs0)[b] ==>
          w in Colored(hs, s, Black))
    && (forall b :: b in s ==> hs[b].trial == Outer(hs0, s, b) + EdgesFrom(GraphOf(hs0), done)[b])
    && (forall b :: b in Colored(hs, s, Black) ==> Reach(GraphOf(hs0), HeldOutside(hs0, s), b))
    && (forall b :: b in Colored(hs, s, White) ==> Outer(hs0, s, b) == 0)
  }

  /** Every child of a white vertex has been looked at or waits on the stack. */
  ghost predicate Pending(hs0: Headers, hs: Headers, s: set<nat>, stack: seq<nat>) {
    |hs0| == |hs| &&
    forall b, w {:trigger w in GraphOf(hs0)[b]} ::
      b in Colored(hs, s, White) && w in GraphOf(hs0)[b] && w in Colored(hs, s, Gray) ==> w in stack
  }

  /** The owner count of a subgraph vertex is never below its internal in-degree. */
  lemma OuterNonNegative(hs: Headers, held: multiset<nat>, s: set<nat>, b: nat)
    requires Counts(hs, held) && s <= LiveSet(hs) && b in s
    ensures Outer(hs, s, b) == held[b] + EdgesFrom(GraphOf(hs), Vertices(GraphOf(hs)) - s)[b]
    ensures Outer(hs, s, b) >= 0
  {
    var g := GraphOf(hs);
    EdgesSplit(g, s, Vertices(g) - s);
    assert s + (Vertices(g) - s) == Vertices(g);
  }

  /** A vertex with a positive trial count that is still gray is held from outside. */
  lemma GrayPositive(hs0: Headers, held: multiset<nat>, hs: Headers, s: set<nat>, done: set<nat>, b: nat)
    requires Counts(hs0, held) && Subgraph(hs0, s) && Scanning(hs0, hs, s, done)
    requires b in s && hs[b].color == Gray
    ensures hs[b].trial == Outer(hs0, s, b) >= 0
  {
    EdgesMember(GraphOf(hs0), done, b);
    OuterNonNegative(hs0, held, s, b);
  }

  /** Scan exactness: once nothing is gray, black is what outside holders reach, white the rest. */
  lemma ScanExact(hs0: Headers, hs: Headers, s: set<nat>, roots: set<nat>)
    requires Links(hs0) && Subgraph(hs0, s) && s == ReachSet(GraphOf(hs0), roots)
    requires forall r :: r in roots ==> r in s && r < |hs| && hs[r].color != Gray
    requires Scanning(hs0, hs, s, Colored(hs, s, Black)) && Pending(hs0, hs, s, [])
    requires forall b :: b in s ==> Outer(hs0, s, b) >= 0
    ensures Colored(hs, s, Gray) == {}
    ensures Colored(hs, s, Black) == ReachSet(GraphOf(hs0), HeldOutside(hs0, s))
    ensures Colored(hs, s, White) == s - ReachSet(GraphOf(hs0), HeldOutside(hs0, s))
  {
    hide Outer, EdgesFrom, SameButMarks, Reach, Links, Children;
    var g := GraphOf(hs0);
    var black, outer := Colored(hs, s, Black), HeldOutside(hs0, s);
    LinksGraph(hs0);
    NothingGray(hs0, hs, s, roots);
    assert outer <= black;
    forall b | b in ReachSet(g, outer) ensures b in black {
      ReachInsideClosed(g, outer, black, b);
    }
  }

  lemma NothingGray(hs0: Headers, hs: Headers, s: set<nat>, roots: set<nat>)
    requires Links(hs0) && Subgraph(hs0, s) && s == ReachSet(GraphOf(hs0), roots)
    requires forall r :: r in roots ==> r in s && r < |hs| && hs[r].color != Gray
    requires Scanning(hs0, hs, s, Colored(hs, s, Black)) && Pending(hs0, hs, s, [])
    ensures Colored(hs, s, Gray) == {}
  {
    hide Reach, Outer, HeldOutside, EdgesFrom, Links, SameButMarks, GraphOf;
    var g := GraphOf(hs0);
    LinksGraph(hs0);
    var seen := s - Colored(hs, s, Gray);
    forall v, w {:trigger w in g[v]} | v in seen && v < |g| && w in g[v] ensures w in seen {
      assert w in s;
      if hs[v].color == Black {
        assert v in Colored(hs, s, Black);
      } else {
        assert v in Colored(hs, s, White);
      }
    }
    forall b | b in s ensures b in seen {
      ReachInsideClosed(g, roots, seen, b);
    }
  }

  lemma ColoredMember(hs: Headers, s: set<nat>, color: Color)
    ensures forall b :: b in Colored(hs, s, color) <==> b in s && b < |hs| && hs[b].color == color
  {
  }

  lemma ColoredNone(hs: Headers, xs: seq<nat>, color: Color)
    ensures Colored(hs, Elems(xs[..0]), color) == {}
  {
  }

  /** The members of the next prefix that are white. */
  lemma ColoredNext(hs: Headers, xs: seq<nat>, i: nat, color: Color)
    requires Distinct(xs) && i < |xs| && xs[i] < |hs|
    ensures xs[i] !in Elems(xs[..i]) && xs[i] !in Colored(hs, Elems(xs[..i]), color)
    ensures Colored(hs, Elems(xs[..i + 1]), color)
         == Colored(hs, Elems(xs[..i]), color) + if hs[xs[i]].color == color then {xs[i]} else {}
  {
    assert xs[..i + 1] == xs[..i] + [xs[i]];
  }

  // ------------------------------------------------------------------ what white means

  /** Everything that may keep a member of `s` alive: held handles and live objects outside. */
  ghost function Holders(hs: Headers, held: multiset<nat>, s: set<nat>): set<nat> {
    HeldSet(held) + (LiveSet(hs) - s)
  }

  /** The objects a collection over the subgraph `s` reclaims. */
  ghost function Garbage(hs: Headers, held: multiset<nat>, s: set<nat>): set<nat> {
    s - ReachSet(GraphOf(hs), Holders(hs, held, s))
  }

  lemma HeldSetLive(hs: Headers, held: multiset<nat>)
    requires Counts(hs, held)
    ensures HeldSet(held) <= LiveSet(hs)
  {
  }

  /** An edge or handle from outside is what makes a vertex held from outside. */
  lemma HeldOutsideMeans(hs: Headers, held: multiset<nat>, s: set<nat>, b: nat)
    requires Links(hs) && Counts(hs, held) && Subgraph(hs, s) && b in s
    ensures b in HeldOutside(hs, s) <==>
              b in held || exists v :: v in LiveSet(hs) - s && b in GraphOf(hs)[v]
  {
    var g := GraphOf(hs);
    OuterNonNegative(hs, held, s, b);
    EdgesMember(g, Vertices(g) - s, b);
    LinksGraph(hs);
    if b in EdgesFrom(g, Vertices(g) - s) {
      var v :| 0 <= v < |g| && v in Vertices(g) - s && b in g[v];
      assert v in LiveSet(hs) - s;
    }
    if v :| v in LiveSet(hs) - s && b in g[v] {
      assert v in Vertices(g) - s;
    }
  }

  /** Within the subgraph, what is reached from vertices held outside is what holders reach. */
  lemma HoldersReach(hs: Headers, held: multiset<nat>, s: set<nat>)
    requires Links(hs) && Counts(hs, held) && Subgraph(hs, s)
    ensures s - ReachSet(GraphOf(hs), HeldOutside(hs, s)) == Garbage(hs, held, s)
  {
    var g := GraphOf(hs);
    LinksGraph(hs);
    HeldSetLive(hs, held);
    ReachSetClosed(g, HeldOutside(hs, s));
    forall b | b in s ensures Reach(g, HeldOutside(hs, s), b) <==> Reach(g, Holders(hs, held, s), b) {
      if Reach(g, HeldOutside(hs, s), b) {
        forall m | m in HeldOutside(hs, s) ensures Reach(g, Holders(hs, held, s), m) {
          HolderReaches(hs, held, s, m);
        }
        ReachTransitive(g, Holders(hs, held, s), HeldOutside(hs, s), b);
      }
      if Reach(g, Holders(hs, held, s), b) {
        HoldersStayOutside(hs, held, s, b);
      }
    }
  }

  lemma HolderReaches(hs: Headers, held: multiset<nat>, s: set<nat>, m: nat)
    requires Links(hs) && Counts(hs, held) && Subgraph(hs, s) && m in HeldOutside(hs, s)
    ensures Reach(GraphOf(hs), Holders(hs, held, s), m)
  {
    var g := GraphOf(hs);
    HeldOutsideMeans(hs, held, s, m);
    if m in held {
      ReachSource(g, Holders(hs, held, s), m);
    } else {
      var v :| v in LiveSet(hs) - s && m in g[v];
      ReachSource(g, Holders(hs, held, s), v);
      ReachStep(g, Holders(hs, held, s), v, m);
    }
  }

  lemma HoldersStayOutside(hs: Headers, held: multiset<nat>, s: set<nat>, b: nat)
    requires Links(hs) && Counts(hs, held) && Subgraph(hs, s) && b in s
    requires Reach(GraphOf(hs), Holders(hs, held, s), b)
    ensures Reach(GraphOf(hs), HeldOutside(hs, s), b)
  {
    var g := GraphOf(hs);
    var inner := ReachSet(g, HeldOutside(hs, s));
    var z := (LiveSet(hs) - s) + inner;
    LinksGraph(hs);
    ReachSetClosed(g, HeldOutside(hs, s));
    forall v, w {:trigger w in g[v]} | v in z && v < |g| && w in g[v] ensures w in z {
      if v !in inner && w in s {
        HeldOutsideMeans(hs, held, s, w);
      }
    }
    forall v | v in Holders(hs, held, s) ensures v in z {
      HeldSetLive(hs, held);
      if v in s {
        HeldOutsideMeans(hs, held, s, v);
      }
    }
    ReachInsideClosed(g, Holders(hs, held, s), z, b);
  }

  // ------------------------------------------------------------------ releasing the group

  /** No edge leads from a survivor to garbage. */
  lemma SurvivorsClosed(hs: Headers, held: multiset<nat>, s: set<nat>)
    requires Links(hs) && Counts(hs, held) && Subgraph(hs, s)
    ensures Closed(GraphOf(hs), LiveSet(hs) - Garbage(hs, held, s))
  {
    var g := GraphOf(hs);
    var holders := Holders(hs, held, s);
    LinksGraph(hs);
    forall v, w {:trigger w in g[v]} | v in LiveSet(hs) - Garbage(hs, held, s) && v < |g| && w in g[v]
      ensures w in LiveSet(hs) - Garbage(hs, held, s)
    {
      if v !in s {
        ReachSource(g, holders, v);
      }
      ReachStep(g, holders, v, w);
    }
  }

  /** Every survivor keeps an owner outside the garbage, so releasing the edges that leave the
      group never takes a count to zero. */
  lemma SurvivorKeepsOwner(hs: Headers, held: multiset<nat>, s: set<nat>, b: nat)
    requires Links(hs) && Counts(hs, held) && Subgraph(hs, s)
    requires b in LiveSet(hs) - Garbage(hs, held, s)
    ensures hs[b].owners > EdgesFrom(GraphOf(hs), Garbage(hs, held, s))[b]
  {
    var g := GraphOf(hs);
    var white := Garbage(hs, held, s);
    var rest := Vertices(g) - white;
    EdgesSplit(g, white, rest);
    assert white + rest == Vertices(g);
    LinksGraph(hs);
    if b !in held {
      var y := OwnerOutside(hs, held, s, b);
      EdgesMember(g, rest, b);
      assert y in rest;
    }
  }

  lemma OwnerOutside(hs: Headers, held: multiset<nat>, s: set<nat>, b: nat) returns (y: nat)
    requires Links(hs) && Counts(hs, held) && Subgraph(hs, s)
    requires b in LiveSet(hs) - Garbage(hs, held, s) && b !in held
    ensures y in LiveSet(hs) - Garbage(hs, held, s) && b in GraphOf(hs)[y]
  {
    var g := GraphOf(hs);
    var holders := Holders(hs, held, s);
    LinksGraph(hs);
    if b in s {
      assert b in HeldSet(held) ==> b in held;
      y := ReachPredecessor(g, holders, b);
    } else {
      // outside the subgraph no edge comes from inside it
      EdgesMember(g, Vertices(g), b);
      y :| 0 <= y < |g| && y in Vertices(g) && b in g[y];
    }
  }

  /** The counts after the group is gone. */
  lemma CountsCollected(hs: Headers, hs2: Headers, held: multiset<nat>, s: set<nat>)
    requires Links(hs) && Counts(hs, held) && Subgraph(hs, s)
    requires Freed(hs, hs2, Garbage(hs, held, s))
    requires forall b :: b in LiveSet(hs) - Garbage(hs, held, s) ==>
               hs2[b].owners == hs[b].owners - EdgesFrom(GraphOf(hs), Garbage(hs, held, s))[b]
    ensures Links(hs2) && Counts(hs2, held)
    ensures LiveSet(hs2) == LiveSet(hs) - Garbage(hs, held, s)
    ensures HonestFlags(hs) ==> HonestFlags(hs2)
    ensures forall b :: 0 <= b < |hs| ==>
              GraphOf(hs2)[b] == if b in Garbage(hs, held, s) then [] else GraphOf(hs)[b]
  {
    hide Reach, Garbage, Counts, Subgraph, Links, HonestFlags;
    var white := Garbage(hs, held, s);
    SurvivorsClosed(hs, held, s);
    LinksGraph(hs);
    forall b, w {:trigger w in GraphOf(hs)[b]} | 0 <= b < |hs| && b !in white && w in GraphOf(hs)[b]
      ensures w !in white
    {
      assert b in LiveSet(hs) - white;
    }
    FreedGraph(hs, hs2, white);
    if HonestFlags(hs) {
      FreedHonest(hs, hs2, white);
    }
    SurvivorCounts(hs, hs2, held, s);
  }

  lemma SurvivorCounts(hs: Headers, hs2: Headers, held: multiset<nat>, s: set<nat>)
    requires Links(hs) && Counts(hs, held) && Subgraph(hs, s) && |hs2| == |hs|
    requires LiveSet(hs2) == LiveSet(hs) - Garbage(hs, held, s)
    requires forall b :: b in LiveSet(hs) - Garbage(hs, held, s) ==>
               hs2[b].owners == hs[b].owners - EdgesFrom(GraphOf(hs), Garbage(hs, held, s))[b]
    requires forall b :: 0 <= b < |hs| ==>
               GraphOf(hs2)[b] == if b in Garbage(hs, held, s) then [] else GraphOf(hs)[b]
    ensures Counts(hs2, held)
  {
    hide Links, EdgesFrom, GraphOf, Garbage, Reach, Subgraph;
    forall b | b in LiveSet(hs2)
      ensures hs2[b].owners == held[b] + Edges(GraphOf(hs2))[b] && hs2[b].owners > 0
    {
      SurvivorCountAt(hs, hs2, held, s, b);
    }
    forall b | b in held ensures b in LiveSet(hs2) {
      HeldSurvives(hs, held, s, b);
    }
  }

  lemma SurvivorCountAt(hs: Headers, hs2: Headers, held: multiset<nat>, s: set<nat>, b: nat)
    requires Links(hs) && Counts(hs, held) && Subgraph(hs, s) && |hs2| == |hs|
    requires b in LiveSet(hs) - Garbage(hs, held, s)
    requires hs2[b].owners == hs[b].owners - EdgesFrom(GraphOf(hs), Garbage(hs, held, s))[b]
    requires forall x :: 0 <= x < |hs| ==>
               GraphOf(hs2)[x] == if x in Garbage(hs, held, s) then [] else GraphOf(hs)[x]
    ensures hs2[b].owners == held[b] + Edges(GraphOf(hs2))[b] && hs2[b].owners > 0
  {
    hide Links, EdgesFrom, GraphOf, Garbage, Reach, Closed;
    GarbageInside(hs, held, s);
    EdgesCut(GraphOf(hs), GraphOf(hs2), Garbage(hs, held, s));
    SurvivorKeepsOwner(hs, held, s, b);
  }

  lemma HeldSurvives(hs: Headers, held: multiset<nat>, s: set<nat>, b: nat)
    requires Links(hs) && Counts(hs, held) && b in held
    ensures b in LiveSet(hs) && b !in Garbage(hs, held, s)
  {
    hide Reach;
    LinksGraph(hs);
    assert b in Holders(hs, held, s);
    ReachSource(GraphOf(hs), Holders(hs, held, s), b);
  }

  // ------------------------------------------------------------------ soundness and completeness

  /** Soundness: nothing a held handle reaches is garbage, whatever the candidates were. */
  lemma GarbageIsUnreachable(hs: Headers, held: multiset<nat>, s: set<nat>)
    requires Links(hs) && Counts(hs, held)
    ensures Garbage(hs, held, s) * ReachSet(GraphOf(hs), HeldSet(held)) == {}
  {
    forall b | b in ReachSet(GraphOf(hs), HeldSet(held)) ensures b !in Garbage(hs, held, s) {
      SourcesMonotone(GraphOf(hs), HeldSet(held), Holders(hs, held, s), b);
    }
  }

  /** Completeness, both ways: the collection reclaims every unreachable object exactly when every
      unreachable object can be reached from the candidates it starts from. */
  lemma GarbageIsEverything(hs: Headers, held: multiset<nat>, roots: set<nat>)
    requires Links(hs) && Counts(hs, held) && roots <= LiveSet(hs)
    ensures Garbage(hs, held, ReachSet(GraphOf(hs), roots)) == Unreachable(hs, held)
        <==> CoveredFrom(hs, held, roots)
  {
    hide Reach, Links, Counts;
    var g := GraphOf(hs);
    var s := ReachSet(g, roots);
    if CoveredFrom(hs, held, roots) {
      forall b ensures b in Garbage(hs, held, s) <==> b in Unreachable(hs, held) {
        if b in s {
          ReachLive(hs, roots, b);
          HoldersReachable(hs, held, roots, b);
        }
        SourcesMonotoneIf(g, HeldSet(held), Holders(hs, held, s), b);
      }
    } else {
      var u :| u in Unreachable(hs, held) && !Reach(g, roots, u);
      assert u !in Garbage(hs, held, s);
    }
  }

  lemma SourcesMonotoneIf(g: Graph, from: set<nat>, from2: set<nat>, v: nat)
    requires from <= from2
    ensures Reach(g, from, v) ==> Reach(g, from2, v)
  {
    if Reach(g, from, v) {
      SourcesMonotone(g, from, from2, v);
    }
  }

  /** When the candidates cover everything, all holders are themselves reachable. */
  lemma HoldersReachable(hs: Headers, held: multiset<nat>, roots: set<nat>, b: nat)
    requires Links(hs) && Counts(hs, held) && CoveredFrom(hs, held, roots)
    ensures Reach(GraphOf(hs), Holders(hs, held, ReachSet(GraphOf(hs), roots)), b) ==>
              Reach(GraphOf(hs), HeldSet(held), b)
  {
    var g := GraphOf(hs);
    var holders := Holders(hs, held, ReachSet(g, roots));
    LinksGraph(hs);
    forall m | m in holders && m < |g| ensures Reach(g, HeldSet(held), m) {
      if m in HeldSet(held) {
        ReachSource(g, HeldSet(held), m);
      } else {
        assert m in Unreachable(hs, held) ==> m in ReachSet(g, roots);
      }
    }
    if Reach(g, holders, b) {
      ReachTransitive(g, HeldSet(held), holders, b);
    }
  }

  // ------------------------------------------------------------------ steps of the scan

  ghost function Elems(xs: seq<nat>): set<nat> {
    set x | x in xs
  }

  ghost predicate Distinct(xs: seq<nat>) {
    forall i, j :: 0 <= i < j < |xs| ==> xs[i] != xs[j]
  }

  /** Some vertices turned black; no colour changed otherwise. */
  ghost predicate OnlyBlackened(hs: Headers, hs2: Headers) {
    && |hs| == |hs2|
    && forall b :: 0 <= b < |hs| ==> hs2[b].color == hs[b].color || hs2[b].color == Black
  }

  lemma GrayedMarks(hs0: Headers, hs: Headers, s: set<nat>)
    requires |hs| == |hs0| && s <= Below(|hs|)
    requires forall b :: 0 <= b < |hs| ==>
               hs[b] == if b in s then hs0[b].(color := Gray, trial := Outer(hs0, s, b)) else hs0[b]
    ensures SameButMarks(hs0, hs)
  {
    hide Outer;
  }

  /** Before the scan: the whole subgraph gray, trial counts reduced to the outer owners. */
  lemma ScanStart(hs0: Headers, hs: Headers, s: set<nat>)
    requires |hs| == |hs0| && s <= Below(|hs|)
    requires forall b :: 0 <= b < |hs| ==>
               hs[b] == if b in s then hs0[b].(color := Gray, trial := Outer(hs0, s, b)) else hs0[b]
    ensures Scanning(hs0, hs, s, {}) && Scanning(hs0, hs, s, Colored(hs, s, Black))
    ensures Pending(hs0, hs, s, [])
  {
    hide Outer, EdgesFrom, Reach, GraphOf, HeldOutside, SameButMarks, Colored;
    GrayedMarks(hs0, hs, s);
    EdgesNone(GraphOf(hs0));
    AllGray(hs0, hs, s);
  }

  lemma AllGray(hs0: Headers, hs: Headers, s: set<nat>)
    requires |hs| == |hs0| && s <= Below(|hs|)
    requires forall b :: 0 <= b < |hs| ==>
               hs[b] == if b in s then hs0[b].(color := Gray, trial := Outer(hs0, s, b)) else hs0[b]
    ensures Colored(hs, s, Black) == {} && Colored(hs, s, White) == {}
    ensures forall b :: b in s ==> b < |hs| && hs[b].color == Gray && hs[b].trial == Outer(hs0, s, b)
  {
    hide Outer;
  }

  /** Whitening a gray vertex nothing outside holds. */
  lemma ScanWhiten(hs0: Headers, hs: Headers, s: set<nat>, stack: seq<nat>, b: nat)
    requires Scanning(hs0, hs, s, Colored(hs, s, Black)) && Pending(hs0, hs, s, stack + [b])
    requires b in s && b < |hs| && hs[b].color == Gray && Outer(hs0, s, b) == 0
    ensures var hs2 := hs[b := hs[b].(color := White)];
            && Scanning(hs0, hs2, s, Colored(hs2, s, Black))
            && Pending(hs0, hs2, s, stack + Children(hs0, b))
  {
    hide Outer, EdgesFrom, Reach, Children;
    var hs2 := hs[b := hs[b].(color := White)];
    assert Colored(hs2, s, Black) == Colored(hs, s, Black);
    forall v, w {:trigger w in GraphOf(hs0)[v]} |
      v in Colored(hs2, s, White) && w in GraphOf(hs0)[v] && w in Colored(hs2, s, Gray)
      ensures w in stack + Children(hs0, b)
    {
      if v != b {
        assert v in Colored(hs, s, White) && w in Colored(hs, s, Gray);
        assert w in stack + [b];
      }
    }
  }

  /** Blackening a vertex held from outside. */
  lemma ScanBlacken(hs0: Headers, hs: Headers, s: set<nat>, b: nat)
    requires Scanning(hs0, hs, s, Colored(hs, s, Black))
    requires b in s && b < |hs| && Outer(hs0, s, b) > 0
    ensures Scanning(hs0, hs[b := hs[b].(color := Black)], s, Colored(hs, s, Black))
    ensures Colored(hs[b := hs[b].(color := Black)], s, Black) == Colored(hs, s, Black) + {b}
  {
    hide EdgesFrom, Reach, Outer, GraphOf, HeldOutside, Colored;
    ColoredMember(hs, s, Black);
    ColoredOne(hs, s, b);
    HeldHere(hs0, s, b);
    ReachSource(GraphOf(hs0), HeldOutside(hs0, s), b);
  }

  lemma ColoredOne(hs: Headers, s: set<nat>, b: nat)
    requires b in s && b < |hs|
    ensures Colored(hs[b := hs[b].(color := Black)], s, Black) == Colored(hs, s, Black) + {b}
    ensures Colored(hs[b := hs[b].(color := Black)], s, White) <= Colored(hs, s, White)
  {
  }

  lemma HeldHere(hs0: Headers, s: set<nat>, b: nat)
    requires b in s && b < |hs0| && Outer(hs0, s, b) > 0
    ensures b in HeldOutside(hs0, s)
  {
    hide Outer;
  }

  /** `hs2` is `hs` after the children of `node` have been restored. */
  ghost predicate Restored(hs: Headers, hs2: Headers, kids: seq<nat>) {
    && |hs| == |hs2|
    && forall b :: 0 <= b < |hs| ==>
        hs2[b] == hs[b].(trial := hs[b].trial + multiset(kids)[b],
                         color := if b in kids then Black else hs[b].color)
  }

  lemma RestoredNone(hs: Headers)
    ensures Restored(hs, hs, [])
  {
  }

  lemma RestoredColor(hs: Headers, hs1: Headers, kids: seq<nat>, w: nat)
    requires Restored(hs, hs1, kids) && w < |hs|
    ensures |hs1| == |hs| && hs1[w].color == if w in kids then Black else hs[w].color
  {
  }

  /** One more child restored. */
  lemma RestoredOne(hs: Headers, hs1: Headers, kids: seq<nat>, w: nat)
    requires Restored(hs, hs1, kids) && w < |hs|
    ensures Restored(hs, hs1[w := hs1[w].(trial := hs1[w].trial + 1, color := Black)], kids + [w])
  {
  }

  lemma ScanRestore(hs0: Headers, hs: Headers, hs2: Headers, s: set<nat>, done: set<nat>, node: nat)
    requires Links(hs0) && Subgraph(hs0, s) && Scanning(hs0, hs, s, done)
    requires node in Colored(hs, s, Black) && node !in done
    requires Restored(hs, hs2, Children(hs0, node))
    ensures Scanning(hs0, hs2, s, done + {node})
    ensures Colored(hs2, s, Black) == Colored(hs, s, Black) + Elems(Children(hs0, node))
    ensures OnlyBlackened(hs, hs2)
  {
    hide Outer, EdgesFrom, GraphOf, Reach, Links, HeldOutside, Colored, Subgraph, OnlyBlackened, SameButMarks;
    ColoredMember(hs, s, Black);
    ScanningSize(hs0, hs, s, done);
    RestoredMarks(hs0, hs, hs2, s, Children(hs0, node));
    RestoredReach(hs0, hs, hs2, s, done, node);
    RestoredTrials(hs0, hs, hs2, s, done, node);
    forall b, w {:trigger w in GraphOf(hs0)[b]} | b in done + {node} && w in GraphOf(hs0)[b]
      ensures w in Colored(hs2, s, Black)
    {
      assert b != node ==> w in Colored(hs, s, Black);
    }
  }

  lemma ScanningSize(hs0: Headers, hs: Headers, s: set<nat>, done: set<nat>)
    requires Scanning(hs0, hs, s, done)
    ensures |hs| == |hs0|
  {
  }

  lemma RestoredMarks(hs0: Headers, hs: Headers, hs2: Headers, s: set<nat>, kids: seq<nat>)
    requires SameButMarks(hs0, hs) && Restored(hs, hs2, kids) && s <= Below(|hs|)
    ensures SameButMarks(hs0, hs2) && OnlyBlackened(hs, hs2) && |hs2| == |hs|
    ensures Colored(hs2, s, White) <= Colored(hs, s, White)
  {
  }

  lemma RestoredReach(hs0: Headers, hs: Headers, hs2: Headers, s: set<nat>, done: set<nat>, node: nat)
    requires Links(hs0) && Subgraph(hs0, s) && Scanning(hs0, hs, s, done)
    requires node in Colored(hs, s, Black)
    requires Restored(hs, hs2, Children(hs0, node))
    ensures Elems(GraphOf(hs0)[node]) <= s
    ensures Colored(hs2, s, Black) == Colored(hs, s, Black) + Elems(GraphOf(hs0)[node])
    ensures forall b :: b in Colored(hs2, s, Black) ==> Reach(GraphOf(hs0), HeldOutside(hs0, s), b)
  {
    hide Outer, EdgesFrom, Children, Reach, Links;
    var g := GraphOf(hs0);
    LinksGraph(hs0);
    forall w | w in g[node] ensures w in s && w < |g| && Reach(g, HeldOutside(hs0, s), w) {
      ReachStep(g, HeldOutside(hs0, s), node, w);
    }
  }

  lemma RestoredTrials(hs0: Headers, hs: Headers, hs2: Headers, s: set<nat>, done: set<nat>, node: nat)
    requires Scanning(hs0, hs, s, done) && node < |hs0| && node !in done
    requires Restored(hs, hs2, Children(hs0, node)) && Elems(Children(hs0, node)) <= s
    ensures SameButMarks(hs0, hs2)
    ensures forall b :: 0 <= b < |hs2| && b !in s ==> hs2[b] == hs0[b]
    ensures forall b :: b in s ==>
              hs2[b].trial == Outer(hs0, s, b) + EdgesFrom(GraphOf(hs0), done + {node})[b]
  {
    hide Outer, EdgesFrom, Children, Reach, Links;
    var g := GraphOf(hs0);
    EdgesAdd(g, done, node);
    forall b | 0 <= b < |hs2| && b !in s ensures hs2[b] == hs0[b] {
      assert b !in Elems(Children(hs0, node));
      assert multiset(Children(hs0, node))[b] == 0;
    }
  }

  /** Blackening alone never uncovers a pending child. */
  lemma PendingBlackened(hs0: Headers, hs: Headers, hs2: Headers, s: set<nat>, stack: seq<nat>, b: nat)
    requires Pending(hs0, hs, s, stack + [b]) && OnlyBlackened(hs, hs2) && b < |hs|
    requires hs2[b].color != Gray
    ensures Pending(hs0, hs2, s, stack)
  {
    forall v, w {:trigger w in GraphOf(hs0)[v]} |
      v in Colored(hs2, s, White) && w in GraphOf(hs0)[v] && w in Colored(hs2, s, Gray)
      ensures w in stack
    {
      assert v in Colored(hs, s, White) && w in Colored(hs, s, Gray);
      assert w in stack + [b];
    }
  }

  // ------------------------------------------------------------------ the other phases

  /** The blocks named by current entries of the candidate buffer. */
  ghost function CurrentBlocks(hs: Headers, candidates: seq<Candidate>): set<nat> {
    set c | c in candidates && Current(hs, c) :: c.header
  }

  /** Filtering clears the buffered flag of the blocks in `seen`. */
  ghost predicate Filtered(hs: Headers, hs2: Headers, seen: set<nat>) {
    && |hs| == |hs2|
    && forall b :: 0 <= b < |hs| ==> hs2[b] == hs[b].(buffered := hs[b].buffered && b !in seen)
  }

  lemma FilterStep(hs: Headers, hs2: Headers, before: seq<Candidate>, c: Candidate)
    requires Filtered(hs, hs2, CurrentBlocks(hs, before)) && c.header < |hs|
    ensures Current(hs2, c) <==> Current(hs, c)
    ensures CurrentBlocks(hs, before + [c])
         == CurrentBlocks(hs, before) + if Current(hs, c) then {c.header} else {}
    ensures Roots(hs, before + [c])
         == Roots(hs, before) + if Current(hs, c) && hs[c.header].color == Purple then {c.header} else {}
  {
    var more := before + [c];
    forall b ensures b in CurrentBlocks(hs, more) <==>
                     b in CurrentBlocks(hs, before) || (Current(hs, c) && b == c.header)
    {
      if Current(hs, c) && b == c.header {
        assert c in more;
      }
      if d :| d in before && Current(hs, d) && d.header == b {
        assert d in more;
      }
    }
    forall b ensures b in Roots(hs, more) <==>
                     b in Roots(hs, before) || (Current(hs, c) && hs[c.header].color == Purple && b == c.header)
    {
      if Current(hs, c) && hs[c.header].color == Purple && b == c.header {
        assert c in more;
      }
      if d :| d in before && Current(hs, d) && hs[d.header].color == Purple && d.header == b {
        assert d in more;
      }
    }
  }

  lemma FilteredMeans(hs: Headers, hs2: Headers, candidates: seq<Candidate>, held: multiset<nat>)
    requires Filtered(hs, hs2, CurrentBlocks(hs, candidates))
    ensures SameLinks(hs, hs2) && GraphOf(hs2) == GraphOf(hs) && LiveSet(hs2) == LiveSet(hs)
    ensures Links(hs) ==> Links(hs2)
    ensures Counts(hs, held) ==> Counts(hs2, held)
    ensures Buffered(hs, candidates) ==> forall b :: 0 <= b < |hs2| && hs2[b].live ==> !hs2[b].buffered
  {
    hide EdgesFrom, Children;
    SameLinksGraph(hs, hs2);
    if Buffered(hs, candidates) {
      forall b | 0 <= b < |hs| && hs[b].live && hs[b].buffered ensures b in CurrentBlocks(hs, candidates) {
        assert Current(hs, Candidate(b, hs[b].generation));
      }
    }
  }

  /** The depth-first gathering of the subgraph: `seen` is gray, the rest untouched. */
  ghost predicate Gathering(hs0: Headers, hs: Headers, roots: set<nat>, seen: set<nat>, stack: seq<nat>) {
    && |hs| == |hs0|
    && (forall b :: 0 <= b < |hs| ==>
          hs[b] == if b in seen then hs0[b].(color := Gray, trial := hs0[b].owners) else hs0[b])
    && (forall b :: b in seen || b in stack ==> b in LiveSet(hs0) && Reach(GraphOf(hs0), roots, b))
    && (forall b :: b in roots ==> b in seen || b in stack)
    && (forall v, w {:trigger w in GraphOf(hs0)[v]} :: v in seen && w in GraphOf(hs0)[v] ==> w in seen || w in stack)
  }

  lemma LiveBelow(hs: Headers)
    ensures forall b :: b in LiveSet(hs) ==> b < |hs|
  {
  }

  lemma GatherNode(hs0: Headers, hs: Headers, roots: set<nat>, seen: set<nat>, stack: seq<nat>, b: nat)
    requires Links(hs0) && Gathering(hs0, hs, roots, seen, stack + [b]) && b !in seen
    ensures b < |hs|
    ensures Gathering(hs0, hs[b := hs[b].(color := Gray, trial := hs[b].owners)], roots, seen + {b},
                      stack + Children(hs0, b))
  {
    hide Reach, Children, Links, LiveSet, EdgesFrom;
    LiveBelow(hs0);
    var g := GraphOf(hs0);
    LinksGraph(hs0);
    assert b in stack + [b];
    forall w | w in g[b] ensures w in LiveSet(hs0) && Reach(g, roots, w) {
      ReachStep(g, roots, b, w);
    }
    forall x | x in seen || x in stack ensures x in LiveSet(hs0) && Reach(g, roots, x) {
      assert x in seen || x in stack + [b];
    }
    forall x | x in roots ensures x in seen + {b} || x in stack + g[b] {
      assert x in seen || x in stack + [b];
    }
    forall v, w {:trigger w in g[v]} | v in seen + {b} && w in g[v]
      ensures w in seen + {b} || w in stack + g[b]
    {
      assert v in seen ==> w in seen || w in stack + [b];
    }
  }

  /** Popping a vertex already gray. */
  lemma GatherSkip(hs0: Headers, hs: Headers, roots: set<nat>, seen: set<nat>, stack: seq<nat>, b: nat)
    requires Gathering(hs0, hs, roots, seen, stack + [b]) && b in seen
    ensures Gathering(hs0, hs, roots, seen, stack)
  {
    hide Reach, Children;
    forall x | x in stack ensures x in stack + [b] {
    }
    forall x | x in stack + [b] && x !in seen ensures x in stack {
    }
  }

  lemma GatherEnd(hs0: Headers, hs: Headers, roots: set<nat>, seen: set<nat>)
    requires Links(hs0) && Gathering(hs0, hs, roots, seen, [])
    ensures seen == ReachSet(GraphOf(hs0), roots) && Subgraph(hs0, seen)
  {
    hide Children, Links;
    var g := GraphOf(hs0);
    assert roots <= seen;
    forall b | b in ReachSet(g, roots) ensures b in seen {
      ReachInsideClosed(g, roots, seen, b);
    }
  }

  /** The group's outgoing edges were released: counts fell, some survivors became candidates. */
  ghost predicate GroupReleased(hs: Headers, hs2: Headers, released: multiset<nat>) {
    && |hs| == |hs2|
    && forall b :: 0 <= b < |hs| ==>
        && hs[b].owners >= released[b]
        && hs2[b] == hs[b].(owners := hs[b].owners - released[b], color := hs2[b].color, buffered := hs2[b].buffered)
        && (hs2[b].color == hs[b].color || (hs[b].color != White && hs2[b].color == Purple))
  }

  /** The white group was freed. */
  ghost predicate GroupFreed(hs: Headers, hs2: Headers, dead: set<nat>) {
    && |hs| == |hs2|
    && forall b :: 0 <= b < |hs| ==>
        if b in dead then
          && !hs2[b].live && hs2[b].kind.None? && hs2[b].color == Black
          && hs2[b].generation == hs[b].generation + 1
        else hs2[b] == hs[b] || (hs[b].color == Gray && hs2[b] == hs[b].(color := Black))
  }

  /** The colours the scan left, in terms of what the collection must reclaim. */
  ghost predicate Sorted(hs0: Headers, hs: Headers, garbage: set<nat>) {
    && SameButMarks(hs0, hs) && garbage <= LiveSet(hs0)
    && (forall b :: 0 <= b < |hs| ==> hs[b].color != Gray && (hs[b].color == White <==> b in garbage))
  }

  lemma CollectEnds(hs0: Headers, hs4: Headers, hs5: Headers, hs6: Headers, held: multiset<nat>,
                    s: set<nat>, released: multiset<nat>)
    requires Links(hs0) && Counts(hs0, held) && Subgraph(hs0, s)
    requires Sorted(hs0, hs4, Garbage(hs0, held, s))
    requires GroupReleased(hs4, hs5, released) && GroupFreed(hs5, hs6, Garbage(hs0, held, s))
    requires forall b :: 0 <= b < |hs0| && b !in Garbage(hs0, held, s) ==>
               released[b] == EdgesFrom(GraphOf(hs0), Garbage(hs0, held, s))[b]
    ensures Links(hs6) && Counts(hs6, held) && Settled(hs6)
    ensures LiveSet(hs6) == LiveSet(hs0) - Garbage(hs0, held, s)
    ensures HonestFlags(hs0) ==> HonestFlags(hs6)
    ensures forall b :: 0 <= b < |hs0| ==>
              GraphOf(hs6)[b] == if b in Garbage(hs0, held, s) then [] else GraphOf(hs0)[b]
  {
    hide Reach, Children, Garbage, EdgesFrom, Links, Counts, HonestFlags;
    CountsCollected(hs0, hs6, held, s);
  }

  /** Room for every release: a survivor has more owners than edges coming from the group. */
  lemma ReleasesLeaveOwners(hs0: Headers, hs4: Headers, held: multiset<nat>, s: set<nat>, released: multiset<nat>,
                            b: nat)
    requires Links(hs0) && Counts(hs0, held) && Subgraph(hs0, s)
    requires Sorted(hs0, hs4, Garbage(hs0, held, s))
    requires forall x :: 0 <= x < |hs0| ==>
               released[x] == (if x in Garbage(hs0, held, s) then 0
                              else EdgesFrom(GraphOf(hs0), Garbage(hs0, held, s))[x])
    requires b in released && b < |hs0|
    ensures hs4[b].live && hs4[b].owners > released[b] && hs4[b].color != White
  {
    hide Reach, Children, Links, Counts;
    var g := GraphOf(hs0);
    LinksGraph(hs0);
    EdgesMember(g, Garbage(hs0, held, s), b);
    SurvivorKeepsOwner(hs0, held, s, b);
  }

  lemma NoCandidates(hs: Headers)
    ensures Roots(hs, []) == {} && CurrentBlocks(hs, []) == {}
  {
  }

  lemma ScanningLinks(hs0: Headers, hs: Headers, s: set<nat>, done: set<nat>)
    requires Scanning(hs0, hs, s, done) && Links(hs0) && Subgraph(hs0, s)
    ensures SameLinks(hs0, hs) && GraphOf(hs) == GraphOf(hs0) && s <= Below(|hs|)
    ensures forall b :: b in s ==> Elems(GraphOf(hs0)[b]) <= s
  {
    hide Children, Outer, EdgesFrom, Reach, Links;
    SameLinksGraph(hs0, hs);
  }

  lemma PendingMore(hs0: Headers, hs: Headers, s: set<nat>, stack: seq<nat>, more: seq<nat>)
    requires Pending(hs0, hs, s, stack)
    ensures Pending(hs0, hs, s, stack + more)
  {
  }

  lemma LiveMember(hs: Headers, b: nat)
    ensures b in LiveSet(hs) <==> b < |hs| && hs[b].live
  {
  }

  /** `out` lists the edges from `group` to vertices that are not white. */
  ghost predicate LeavesGroup(hs: Headers, out: multiset<nat>, group: set<nat>) {
    && (forall n :: n in out ==> n < |hs|)
    && (forall n :: 0 <= n < |hs| ==>
          out[n] == if hs[n].color == White then 0 else EdgesFrom(GraphOf(hs), group)[n])
  }

  /** `out` lists the members of `kids` that are not white. */
  ghost predicate NotWhiteOf(hs: Headers, out: multiset<nat>, kids: multiset<nat>) {
    && (forall n :: n in out ==> n < |hs|)
    && (forall n :: 0 <= n < |hs| ==> out[n] == if hs[n].color == White then 0 else kids[n])
  }

  lemma LeavesGroupStart(hs: Headers)
    ensures LeavesGroup(hs, multiset{}, {})
  {
    EdgesNone(GraphOf(hs));
  }

  lemma LeavesGroupStep(hs: Headers, out: multiset<nat>, more: multiset<nat>, group: set<nat>, b: nat)
    requires LeavesGroup(hs, out, group) && b < |hs| && b !in group
    requires NotWhiteOf(hs, more, multiset(GraphOf(hs)[b]))
    ensures LeavesGroup(hs, out + more, group + {b})
  {
    hide EdgesFrom, Children;
    EdgesAdd(GraphOf(hs), group, b);
  }

  lemma ColoredInside(hs: Headers, s: set<nat>, color: Color)
    ensures Colored(hs, s, color) <= s
  {
  }

  /** No member of `s` turned gray. */
  ghost predicate SettledMore(hs: Headers, hs2: Headers, s: set<nat>) {
    && |hs2| == |hs| && s <= Below(|hs|)
    && forall b :: b in s && hs[b].color != Gray ==> hs2[b].color != Gray
  }

  lemma GatherStart(hs: Headers, roots: seq<nat>)
    requires Links(hs) && Elems(roots) <= LiveSet(hs)
    ensures Gathering(hs, hs, Elems(roots), {}, roots)
  {
    hide Children;
    forall r | r in roots ensures r in LiveSet(hs) && Reach(GraphOf(hs), Elems(roots), r) {
      assert r in Elems(roots);
      ReachSource(GraphOf(hs), Elems(roots), r);
    }
  }

  lemma GatheringColor(hs0: Headers, hs: Headers, roots: set<nat>, seen: set<nat>, stack: seq<nat>, b: nat)
    requires Gathering(hs0, hs, roots, seen, stack + [b])
    requires forall x :: 0 <= x < |hs0| ==> hs0[x].color != Gray
    ensures b in LiveSet(hs0) && b < |hs| && (hs[b].color == Gray <==> b in seen)
  {
    hide Children;
    assert b in stack + [b];
  }

  lemma GatheringLinks(hs0: Headers, hs: Headers, roots: set<nat>, seen: set<nat>, stack: seq<nat>)
    requires Gathering(hs0, hs, roots, seen, stack)
    ensures GraphOf(hs) == GraphOf(hs0)
  {
    hide Children;
    SameLinksGraph(hs0, hs);
  }

  lemma GatheringColors(hs0: Headers, hs: Headers, roots: set<nat>, seen: set<nat>)
    requires Gathering(hs0, hs, roots, seen, [])
    ensures |hs| == |hs0|
    ensures forall b :: 0 <= b < |hs| ==>
              hs[b] == if b in seen then hs0[b].(color := Gray, trial := hs0[b].owners) else hs0[b]
  {
    hide Children;
  }

  /** `restore` holds, once each, the black vertices whose children are not restored yet. */
  ghost predicate RestoreList(hs: Headers, s: set<nat>, done: set<nat>, restore: seq<nat>) {
    && Distinct(restore) && done !! Elems(restore)
    && Colored(hs, s, Black) == done + Elems(restore)
  }

  lemma RestoreListStart(hs: Headers, s: set<nat>, done: set<nat>, b: nat)
    requires Colored(hs, s, Black) == done + {b} && b !in done
    ensures RestoreList(hs, s, done, [b])
  {
    assert Elems([b]) == {b};
  }

  lemma RestoreListPop(hs: Headers, s: set<nat>, done: set<nat>, restore: seq<nat>, node: nat)
    requires RestoreList(hs, s, done, restore + [node])
    ensures node in Colored(hs, s, Black) && node in s && node !in done && node < |hs|
    ensures Distinct(restore) && node !in restore && done !! Elems(restore)
    ensures Colored(hs, s, Black) == done + {node} + Elems(restore)
    ensures forall w :: w in restore ==> w < |hs| && hs[w].color == Black
  {
    var all := restore + [node];
    assert Elems(all) == Elems(restore) + {node};
    assert all[|restore|] == node;
    forall w | w in restore ensures w in Colored(hs, s, Black) && w != node {
      var i :| 0 <= i < |restore| && restore[i] == w;
      assert all[i] == w && w in Elems(all);
    }
    forall i, j | 0 <= i < j < |restore| ensures restore[i] != restore[j] {
      assert all[i] == restore[i] && all[j] == restore[j];
    }
  }

  lemma RestoreListStep(hs: Headers, hs2: Headers, s: set<nat>, done: set<nat>, restore: seq<nat>, node: nat,
                        kids: seq<nat>, out: seq<nat>)
    requires RestoreList(hs, s, done, restore + [node]) && s <= Below(|hs|)
    requires Colored(hs2, s, Black) == Colored(hs, s, Black) + Elems(kids) && Elems(kids) <= s
    requires Distinct(out)
    requires forall w :: w in out <==> w in restore || (w in kids && w < |hs| && hs[w].color != Black)
    ensures RestoreList(hs2, s, done + {node}, out)
  {
    hide Distinct, Colored;
    RestoreListPop(hs, s, done, restore, node);
    ColoredMember(hs, s, Black);
    forall w ensures w in Elems(out) <==> w in Elems(restore) || (w in Elems(kids) && w !in Colored(hs, s, Black)) {
      assert w in Elems(kids) ==> w in s;
    }
    assert done + {node} + Elems(out) == Colored(hs2, s, Black);
  }

  lemma RestoreListEnd(hs: Headers, s: set<nat>, done: set<nat>)
    requires RestoreList(hs, s, done, [])
    ensures done == Colored(hs, s, Black)
  {
  }

  // ------------------------------------------------------------------ putting the phases together

  /** Trial counts after phase 3 are the owners from outside; nothing else changed. */
  lemma Subtracted(hs0: Headers, hs: Headers, hs2: Headers, s: set<nat>)
    requires Subgraph(hs0, s) && |hs| == |hs2| == |hs0| && GraphOf(hs) == GraphOf(hs0)
    requires forall b :: 0 <= b < |hs| ==>
               hs[b] == if b in s then hs0[b].(color := Gray, trial := hs0[b].owners) else hs0[b]
    requires forall b :: 0 <= b < |hs| ==>
               hs2[b] == hs[b].(trial := hs[b].trial - EdgesFrom(GraphOf(hs), s)[b])
    ensures forall b :: 0 <= b < |hs2| ==>
              hs2[b] == if b in s then hs0[b].(color := Gray, trial := Outer(hs0, s, b)) else hs0[b]
  {
    hide EdgesFrom, Children;
    forall b | 0 <= b < |hs2| && b !in s ensures EdgesFrom(GraphOf(hs0), s)[b] == 0 {
      EdgesMember(GraphOf(hs0), s, b);
    }
  }

  lemma RootsInside(hs0: Headers, roots: set<nat>)
    requires roots <= LiveSet(hs0)
    ensures roots <= ReachSet(GraphOf(hs0), roots)
  {
    hide Children;
    forall r | r in roots ensures r in ReachSet(GraphOf(hs0), roots) {
      ReachSource(GraphOf(hs0), roots, r);
    }
  }

  /** Outside the subgraph nothing changed; inside it nothing is purple. */
  ghost predicate Repainted(hs0: Headers, hs: Headers, s: set<nat>) {
    && |hs| == |hs0|
    && forall b :: 0 <= b < |hs| ==> if b in s then hs[b].color != Purple else hs[b] == hs0[b]
  }

  lemma MarkEnds(hs0: Headers, hs: Headers, held: multiset<nat>, s: set<nat>, roots: set<nat>)
    requires Links(hs0) && Counts(hs0, held) && Settled(hs0) && Subgraph(hs0, s)
    requires s == ReachSet(GraphOf(hs0), roots) && roots <= s
    requires forall r :: r in roots ==> r < |hs| && hs[r].color != Gray
    requires Scanning(hs0, hs, s, Colored(hs, s, Black)) && Pending(hs0, hs, s, [])
    ensures Sorted(hs0, hs, Garbage(hs0, held, s)) && Repainted(hs0, hs, s)
  {
    hide Links, Counts, Reach, EdgesFrom, Children, Pending;
    forall b | b in s ensures Outer(hs0, s, b) >= 0 {
      OuterNonNegative(hs0, held, s, b);
    }
    ScanExact(hs0, hs, s, roots);
    HoldersReach(hs0, held, s);
    var garbage := Garbage(hs0, held, s);
    assert Colored(hs, s, White) == garbage;
    forall b | 0 <= b < |hs| ensures hs[b].color != Gray && (hs[b].color == White <==> b in garbage) {
      assert b in s && hs[b].color == Gray ==> b in Colored(hs, s, Gray);
      assert b in s && hs[b].color == White <==> b in Colored(hs, s, White);
    }
  }

  lemma GarbageInside(hs0: Headers, held: multiset<nat>, s: set<nat>)
    ensures Garbage(hs0, held, s) <= s
  {
  }

  lemma WhiteIsGarbage(hs0: Headers, hs: Headers, held: multiset<nat>, s: set<nat>)
    requires Sorted(hs0, hs, Garbage(hs0, held, s))
    ensures Colored(hs, s, White) == Garbage(hs0, held, s)
  {
    hide Reach, Children;
    GarbageInside(hs0, held, s);
  }

  /** The releases of phase 5 and what they find. */
  lemma ReleasesFit(hs0: Headers, hs4: Headers, held: multiset<nat>, s: set<nat>, out: multiset<nat>)
    requires Links(hs0) && Counts(hs0, held) && Subgraph(hs0, s)
    requires Sorted(hs0, hs4, Garbage(hs0, held, s)) && GraphOf(hs4) == GraphOf(hs0)
    requires LeavesGroup(hs4, out, Garbage(hs0, held, s))
    ensures forall n :: n in out ==>
              n < |hs4| && hs4[n].live && hs4[n].owners > out[n] && hs4[n].color != White
    ensures forall n :: 0 <= n < |hs0| && n !in Garbage(hs0, held, s) ==>
              out[n] == EdgesFrom(GraphOf(hs0), Garbage(hs0, held, s))[n]
  {
    hide Links, Counts, Reach, EdgesFrom, Children, Garbage;
    forall n | n in out ensures n < |hs4| && hs4[n].live && hs4[n].owners > out[n] && hs4[n].color != White {
      ReleasesLeaveOwners(hs0, hs4, held, s, out, n);
    }
  }

  lemma ReleasedColors(hs0: Headers, hs4: Headers, hs5: Headers, held: multiset<nat>, s: set<nat>, out: multiset<nat>)
    requires Sorted(hs0, hs4, Garbage(hs0, held, s)) && GroupReleased(hs4, hs5, out)
    ensures Colored(hs5, s, White) == Garbage(hs0, held, s)
    ensures LiveSet(hs5) == LiveSet(hs0)
  {
    hide Reach, Children, Garbage;
    GarbageInside(hs0, held, s);
  }

  /** The heap after a collection over the subgraph `s`. */
  ghost predicate Collected(hs0: Headers, hs6: Headers, held: multiset<nat>, s: set<nat>) {
    && Links(hs6) && Counts(hs6, held) && Settled(hs6) && Shrunk(hs0, hs6)
    && LiveSet(hs6) == LiveSet(hs0) - Garbage(hs0, held, s)
    && (HonestFlags(hs0) ==> HonestFlags(hs6))
    && (forall b :: 0 <= b < |hs0| ==>
          GraphOf(hs6)[b] == if b in Garbage(hs0, held, s) then [] else GraphOf(hs0)[b])
  }

  lemma CollectedBy(hs0: Headers, hs4: Headers, hs5: Headers, hs6: Headers, held: multiset<nat>,
                    s: set<nat>, released: multiset<nat>)
    requires Links(hs0) && Counts(hs0, held) && Subgraph(hs0, s)
    requires Sorted(hs0, hs4, Garbage(hs0, held, s))
    requires GroupReleased(hs4, hs5, released) && GroupFreed(hs5, hs6, Garbage(hs0, held, s))
    requires forall b :: 0 <= b < |hs0| && b !in Garbage(hs0, held, s) ==>
               released[b] == EdgesFrom(GraphOf(hs0), Garbage(hs0, held, s))[b]
    ensures Collected(hs0, hs6, held, s)
  {
    hide Reach, Children, Garbage, EdgesFrom, Links, Counts, HonestFlags;
    CollectEnds(hs0, hs4, hs5, hs6, held, s, released);
  }

  lemma FreedBuffered(hs5: Headers, hs6: Headers, dead: set<nat>, candidates: seq<Candidate>)
    requires GroupFreed(hs5, hs6, dead)
    ensures Buffered(hs5, candidates) ==> Buffered(hs6, candidates)
  {
  }

  lemma PrefixCount(xs: seq<nat>, i: nat)
    requires i < |xs|
    ensures multiset(xs[..i + 1]) == multiset(xs[..i]) + multiset{xs[i]}
    ensures multiset(xs)[xs[i]] > multiset(xs[..i])[xs[i]]
  {
    assert xs[..i + 1] == xs[..i] + [xs[i]];
    assert xs == xs[..i + 1] + xs[i + 1..];
  }

  lemma SubgraphLive(hs: Headers, s: set<nat>)
    requires Subgraph(hs, s)
    ensures s <= LiveSet(hs)
  {
  }
}
