/** Why releasing owners is right (experiments/genref/genref.c:256-300): one step of the cascade
    keeps the owner counts exact, frees only objects nothing owns, and leaves every object it
    makes unreachable within reach of a collection candidate or of a pending release.
 */
module HeapRelease {
  import opened Graph
  import opened HeapPool
  import opened HeapSnapshot
  import opened HeapState
  import opened Wrappers

  /** Whether `note_cycle_candidate` registers an object of this header. */
  predicate Notable(h: Header) {
    h.kind.Some? && h.kind.value.traced && !h.kind.value.acyclic
  }

  /** The header and the candidate buffer after `note_cycle_candidate`. */
  function NotedHeader(h: Header): Header {
    if Notable(h) then h.(color := Purple, buffered := true) else h
  }

  function NotedBuffer(candidates: seq<Candidate>, b: nat, h: Header): seq<Candidate> {
    if Notable(h) && !h.buffered then candidates + [Candidate(b, h.generation)] else candidates
  }

  /** Only `b` changed, and it lost one owner. */
  ghost predicate Decremented(hs: Headers, hs2: Headers, b: nat) {
    && b < |hs| && SameLinks(hs, hs2)
    && hs2[b].owners == hs[b].owners - 1
    && forall x :: 0 <= x < |hs| && x != b ==> hs2[x] == hs[x]
  }

  /** Only `b` changed, and it is no longer an object. */
  ghost predicate FreedOne(hs: Headers, hs2: Headers, b: nat) {
    && b < |hs| && |hs2| == |hs| && !hs2[b].live && hs2[b].kind.None?
    && forall x :: 0 <= x < |hs| && x != b ==> hs2[x] == hs[x]
  }

  lemma CountsDecremented(hs: Headers, hs2: Headers, outside: multiset<nat>, b: nat)
    requires Links(hs) && Counts(hs, outside + multiset{b})
    requires Decremented(hs, hs2, b) && hs[b].owners > 1
    ensures Counts(hs2, outside)
  {
    SameLinksGraph(hs, hs2);
    forall x | x in outside ensures x < |hs2| && hs2[x].live {
      assert x in outside + multiset{b};
    }
  }

  /** When the last unit goes, nothing else holds or owns the object. */
  lemma LastOwner(hs: Headers, outside: multiset<nat>, b: nat)
    requires Links(hs) && Counts(hs, outside + multiset{b})
    requires b < |hs| && hs[b].owners == 1
    ensures b !in outside
    ensures forall x {:trigger GraphOf(hs)[x]} :: 0 <= x < |hs| ==> b !in GraphOf(hs)[x]
  {
    var g := GraphOf(hs);
    assert b in outside + multiset{b};
    assert hs[b].owners == (outside + multiset{b})[b] + Edges(g)[b];
    EdgesMember(g, Vertices(g), b);
  }

  /** The graph after freeing an object nothing owns. */
  lemma FreedOneGraph(hs: Headers, hs2: Headers, b: nat)
    requires Links(hs) && FreedOne(hs, hs2, b)
    requires forall x {:trigger GraphOf(hs)[x]} :: 0 <= x < |hs| ==> b !in GraphOf(hs)[x]
    ensures Links(hs2) && LiveSet(hs2) == LiveSet(hs) - {b}
    ensures Removed(GraphOf(hs), GraphOf(hs2), b)
  {
    FreedGraph(hs, hs2, {b});
  }

  /** Freeing hands the object's own edges over to the pending releases. */
  lemma CountsFreed(hs: Headers, hs2: Headers, outside: multiset<nat>, b: nat)
    requires Links(hs) && Counts(hs, outside + multiset{b})
    requires FreedOne(hs, hs2, b) && hs[b].owners == 1
    ensures Links(hs2) && Counts(hs2, outside + multiset(Children(hs, b)))
  {
    LastOwner(hs, outside, b);
    FreedOneGraph(hs, hs2, b);
    forall x: nat
      ensures x in outside + multiset(Children(hs, b)) ==> x in LiveSet(hs2)
      ensures x in LiveSet(hs2) ==> CountAt(hs2, outside + multiset(Children(hs, b)), x)
    {
      CountsFreedAt(hs, hs2, outside, b, x);
    }
    CountsFromAt(hs2, outside + multiset(Children(hs, b)));
  }

  ghost predicate CountAt(hs: Headers, outside: multiset<nat>, x: nat)
    requires x < |hs|
  {
    hs[x].owners == outside[x] + Edges(GraphOf(hs))[x] && hs[x].owners > 0
  }

  lemma CountsFromAt(hs: Headers, outside: multiset<nat>)
    requires forall x :: x in outside ==> x in LiveSet(hs)
    requires forall x :: x in LiveSet(hs) ==> CountAt(hs, outside, x)
    ensures Counts(hs, outside)
  {
    forall b | 0 <= b < |hs| && hs[b].live ensures CountAt(hs, outside, b) {
      assert b in LiveSet(hs);
    }
  }

  lemma CountsFreedAt(hs: Headers, hs2: Headers, outside: multiset<nat>, b: nat, x: nat)
    requires Links(hs) && Counts(hs, outside + multiset{b})
    requires FreedOne(hs, hs2, b) && b !in outside && LiveSet(hs2) == LiveSet(hs) - {b}
    requires Removed(GraphOf(hs), GraphOf(hs2), b)
    ensures x in outside + multiset(Children(hs, b)) ==> x in LiveSet(hs2)
    ensures x in LiveSet(hs2) ==> CountAt(hs2, outside + multiset(Children(hs, b)), x)
  {
    EdgesCutOne(GraphOf(hs), GraphOf(hs2), b);
    KidsLive(hs, b, x);
    assert b !in GraphOf(hs)[b];
    assert x in outside ==> x in outside + multiset{b};
    if x in LiveSet(hs2) {
      CountOf(hs, outside + multiset{b}, x);
    }
  }

  lemma CountOf(hs: Headers, outside: multiset<nat>, x: nat)
    requires Counts(hs, outside) && x in LiveSet(hs)
    ensures hs[x].owners == outside[x] + Edges(GraphOf(hs))[x] && hs[x].owners > 0
  {
  }

  lemma KidsLive(hs: Headers, b: nat, x: nat)
    requires Links(hs) && b < |hs|
    ensures x in multiset(Children(hs, b)) ==> x in LiveSet(hs) && x in GraphOf(hs)[b]
  {
    LinksGraph(hs);
    if x in multiset(Children(hs, b)) {
      assert x in GraphOf(hs)[b];
    }
  }

  /** A set in which everything is held or owned from inside survives the free. */
  lemma SupportedSurvives(g: Graph, hs: Headers, held: multiset<nat>, pending: multiset<nat>, b: nat, s: set<nat>)
    requires Links(hs) && Counts(hs, held + pending + multiset{b})
    requires b < |hs| && hs[b].owners == 1
    requires |g| == |hs| && forall x {:trigger g[x]} :: x in LiveSet(hs) ==> g[x] == GraphOf(hs)[x]
    requires Supported(g, HeldSet(held), s) && s <= LiveSet(hs)
    ensures b !in s
  {
    LastOwner(hs, held + pending, b);
    assert b in HeldSet(held) ==> b in held + pending;
    forall u | u in s && u < |g| ensures b !in g[u] {
      assert g[u] == GraphOf(hs)[u];
    }
  }

  // ------------------------------------------------------------------ candidates

  /** An owner other than the pending one keeps `u` covered: if the released `b` is the only
      source reaching `u`, then `b` has another owner that some other source reaches. */
  lemma CoveredWithout(hs: Headers, held: multiset<nat>, pending: multiset<nat>, roots: set<nat>, b: nat, u: nat)
    requires Links(hs) && Counts(hs, held + pending + multiset{b})
    requires b < |hs| && hs[b].live && hs[b].owners > 1
    requires !OnCycle(GraphOf(hs), b)
    requires CoveredFrom(hs, held, roots + HeldSet(pending) + {b})
    requires u in Unreachable(hs, held)
    ensures Reach(GraphOf(hs), roots + HeldSet(pending), u)
  {
    var g := GraphOf(hs);
    var from := roots + HeldSet(pending);
    LinksGraph(hs);
    if !Reach(g, from, b) {
      if b in from {
        ReachSource(g, from, b);
      }
      if b in HeldSet(held) {
        ReachSource(g, HeldSet(held), b);
      }
      if Reach(g, HeldSet(held), b) {
        // then no unreachable object needs `b`
        UnreachableFromReachable(g, HeldSet(held), from, b, u);
      } else {
        var y := OtherOwner(hs, held, pending, b);
        if Reach(g, HeldSet(held), y) {
          ReachStep(g, HeldSet(held), y, b);
        }
        assert y in Unreachable(hs, held);
        ReachViaOwner(g, from, b, y);
      }
    }
    if Reach(g, from, b) {
      ReachThrough(g, from, b, u);
    }
  }

  /** A count above one, with nothing held or pending, comes from an owning edge. */
  lemma OtherOwner(hs: Headers, held: multiset<nat>, pending: multiset<nat>, b: nat) returns (y: nat)
    requires Links(hs) && Counts(hs, held + pending + multiset{b})
    requires b < |hs| && hs[b].live && hs[b].owners > 1
    requires b !in held && b !in pending
    ensures y in LiveSet(hs) && b in GraphOf(hs)[y]
  {
    var g := GraphOf(hs);
    assert (held + pending + multiset{b})[b] == 1;
    EdgesMember(g, Vertices(g), b);
    y :| 0 <= y < |g| && y in Vertices(g) && b in g[y];
    LinksGraph(hs);
  }

  lemma ReachThrough(g: Graph, from: set<nat>, b: nat, u: nat)
    requires WellFormed(g) && Reach(g, from + {b}, u) && Reach(g, from, b)
    ensures Reach(g, from, u)
  {
    var s := ReachWitness(g, from + {b}, u);
    if s in from {
      SourcesMonotone(g, {s}, from, u);
    } else {
      ReachTransitive(g, from, {b}, u);
    }
  }

  lemma UnreachableFromReachable(g: Graph, held: set<nat>, from: set<nat>, b: nat, u: nat)
    requires WellFormed(g) && Reach(g, from + {b}, u) && Reach(g, held, b) && !Reach(g, held, u)
    ensures Reach(g, from, u)
  {
    var s := ReachWitness(g, from + {b}, u);
    if s in from {
      SourcesMonotone(g, {s}, from, u);
    } else {
      ReachTransitive(g, held, {b}, u);
    }
  }

  /** After a decrement that leaves owners, everything unreachable stays covered. */
  lemma CoverDecremented(hs: Headers, hs2: Headers, candidates: seq<Candidate>, candidates2: seq<Candidate>,
                         held: multiset<nat>, pending: multiset<nat>, b: nat)
    requires Links(hs) && HonestFlags(hs) && Counts(hs, held + pending + multiset{b})
    requires b < |hs| && hs[b].live && hs[b].owners > 1 && SameLinks(hs, hs2)
    requires Roots(hs, candidates) <= Roots(hs2, candidates2)
    requires Notable(hs[b]) ==> b in Roots(hs2, candidates2)
    requires CoveredFrom(hs, held, Roots(hs, candidates) + HeldSet(pending) + {b})
    ensures CoveredFrom(hs2, held, Roots(hs2, candidates2) + HeldSet(pending))
  {
    hide Links, Counts, Reach, HonestFlags;
    var g := GraphOf(hs);
    SameLinksGraph(hs, hs2);
    LinksGraph(hs);
    var from2 := Roots(hs2, candidates2) + HeldSet(pending);
    assert Unreachable(hs2, held) == Unreachable(hs, held);
    forall u | u in Unreachable(hs2, held) ensures Reach(g, from2, u) {
      if Notable(hs[b]) {
        SourcesMonotone(g, Roots(hs, candidates) + HeldSet(pending) + {b}, from2, u);
      } else {
        if !hs[b].kind.value.traced {
          assert g[b] == [];
        }
        CoveredWithout(hs, held, pending, Roots(hs, candidates), b, u);
        SourcesMonotone(g, Roots(hs, candidates) + HeldSet(pending), from2, u);
      }
    }
  }

  /** After a free, the sources plus the freed object's children cover what was covered. */
  lemma CoverFreed(hs: Headers, hs2: Headers, candidates: seq<Candidate>,
                   held: multiset<nat>, pending: multiset<nat>, b: nat)
    requires Links(hs) && Counts(hs, held + pending + multiset{b})
    requires FreedOne(hs, hs2, b) && hs[b].owners == 1
    requires CoveredFrom(hs, held, Roots(hs, candidates) + HeldSet(pending) + {b})
    ensures CoveredFrom(hs2, held,
              Roots(hs2, candidates) + HeldSet(pending + multiset(Children(hs, b))))
  {
    hide Links, Counts, Reach, Children;
    var g, g2 := GraphOf(hs), GraphOf(hs2);
    LastOwner(hs, held + pending, b);
    FreedOneGraph(hs, hs2, b);
    var from := Roots(hs, candidates) + HeldSet(pending) + {b};
    var from2 := Roots(hs2, candidates) + HeldSet(pending + multiset(Children(hs, b)));
    assert b in HeldSet(held) ==> b in held + pending;
    forall s | s in from && s != b ensures s in from2 {
    }
    forall u | u in Unreachable(hs2, held) ensures Reach(g2, from2, u) {
      if Reach(g, HeldSet(held), u) {
        ReachAvoids(g, g2, b, HeldSet(held), u);
      }
      assert u in Unreachable(hs, held);
      ReachViaSuccessors(g, g2, b, from, from2, u);
    }
  }

  // ------------------------------------------------------------------ the cascade

  /** The loop of `release_header` started in `s0` with one release pending, now in `s` with the
      releases `work` pending. */
  ghost predicate Cascading(s0: Snapshot, s: Snapshot, work: seq<nat>) {
    && Storage(s) && Links(s.hs) && Settled(s.hs)
    && Counts(s.hs, s.held + multiset(work))
    && s.held == s0.held && s.log == s0.log && s0.candidates <= s.candidates
    && Shrunk(s0.hs, s.hs) && KeepsEdges(s0.hs, s.hs)
    && Outlives(GraphOf(s0.hs), HeldSet(s0.held), LiveSet(s0.hs), LiveSet(s.hs))
  }

  ghost predicate KeepsEdges(hs: Headers, hs2: Headers) {
    && |hs| == |hs2|
    && forall b {:trigger GraphOf(hs2)[b]} :: b in LiveSet(hs2) ==> GraphOf(hs2)[b] == GraphOf(hs)[b]
  }

  ghost predicate CascadeTracked(s: Snapshot, work: seq<nat>) {
    && HonestFlags(s.hs) && Buffered(s.hs, s.candidates)
    && CoveredFrom(s.hs, s.held, Roots(s.hs, s.candidates) + HeldSet(multiset(work)))
  }

  /** The state after one unit of `b` is released and others remain. */
  ghost function AfterDecrement(s: Snapshot, b: nat): Snapshot
    requires b < |s.hs| && s.hs[b].owners > 0
  {
    var h := s.hs[b].(owners := s.hs[b].owners - 1);
    s.(hs := s.hs[b := NotedHeader(h)], candidates := NotedBuffer(s.candidates, b, h))
  }

  /** The state after `free_block`. */
  ghost function AfterFree(s: Snapshot, b: nat): Snapshot
    requires Storage(s) && b < |s.hs| && s.hs[b].live && s.stats.liveObjects > 0
  {
    var c := s.hs[b].classIndex;
    assert BlockOk(s.hs[b]);
    s.(hs := s.hs[b := FreedHeader(s.hs[b], s.heads[c])], heads := s.heads[c := Some(b)],
       lists := s.lists[c := [b] + s.lists[c]],
       stats := s.stats.(liveObjects := s.stats.liveObjects - 1, totalFrees := s.stats.totalFrees + 1))
  }

  lemma StorageDecrement(s: Snapshot, b: nat)
    requires Storage(s) && b < |s.hs| && s.hs[b].live && s.hs[b].owners > 0
    ensures Storage(AfterDecrement(s, b))
  {
    hide Pool;
    var s2 := AfterDecrement(s, b);
    PoolSameStorage(s.hs, s2.hs, s.heads, s.lists, s.log);
    assert LiveSet(s2.hs) == LiveSet(s.hs);
  }

  lemma OneDied(hs: Headers, hs2: Headers, b: nat)
    requires b < |hs| && hs[b].live && |hs2| == |hs| && !hs2[b].live
    requires forall x :: 0 <= x < |hs| && x != b ==> hs2[x] == hs[x]
    ensures LiveSet(hs2) == LiveSet(hs) - {b} && |LiveSet(hs2)| == |LiveSet(hs)| - 1 && b in LiveSet(hs)
  {
    assert b in LiveSet(hs);
    assert LiveSet(hs2) == LiveSet(hs) - {b};
  }

  lemma StorageFree(s: Snapshot, b: nat)
    requires Storage(s) && b < |s.hs| && s.hs[b].live
    ensures s.stats.liveObjects > 0 && Storage(AfterFree(s, b))
    ensures LiveSet(AfterFree(s, b).hs) == LiveSet(s.hs) - {b}
  {
    hide Pool, BlockOk, LiveSet;
    OneDied(s.hs, s.hs[b := FreedHeader(s.hs[b], None)], b);
    var s2 := AfterFree(s, b);
    OneDied(s.hs, s2.hs, b);
    PoolFree(s.hs, s.heads, s.lists, s.log, b);
  }

  /** Ageing one object further keeps the heap shrunk and settled. */
  lemma ShrunkFurther(hs0: Headers, hs: Headers, b: nat, h: Header)
    requires Shrunk(hs0, hs) && b < |hs| && hs[b].live && Aged(hs[b], h)
    requires Settled(hs) && (h.color == hs[b].color || h.color == Black || h.color == Purple)
    ensures Shrunk(hs0, hs[b := h]) && Settled(hs[b := h])
  {
    forall x | 0 <= x < |hs| ensures Aged(hs0[x], hs[b := h][x]) {
      assert Aged(hs0[x], hs[x]);
    }
  }

  /** Outgoing edges kept by the cascade stay kept when a block is freed. */
  lemma KeepsFreed(hs0: Headers, hs: Headers, hs2: Headers, b: nat)
    requires KeepsEdges(hs0, hs) && |hs2| == |hs|
    requires LiveSet(hs2) == LiveSet(hs) - {b} && Removed(GraphOf(hs), GraphOf(hs2), b)
    ensures KeepsEdges(hs0, hs2)
  {
    forall x | x in LiveSet(hs2) ensures GraphOf(hs2)[x] == GraphOf(hs0)[x] {
      assert GraphOf(hs)[x] == GraphOf(hs0)[x];
    }
  }

  lemma CascadeDecrement(s0: Snapshot, s: Snapshot, rest: seq<nat>, b: nat)
    requires Cascading(s0, s, rest + [b]) && b < |s.hs| && s.hs[b].owners > 1
    ensures Cascading(s0, AfterDecrement(s, b), rest)
    ensures CascadeTracked(s, rest + [b]) ==> CascadeTracked(AfterDecrement(s, b), rest)
  {
    hide Reach, EdgesFrom, Storage, HonestFlags, Buffered, CoveredFrom, Roots, GraphOf, CascadeTracked,
      Shrunk, Settled, Links, Counts, Outlives;
    PendingLast(s, rest, b);
    var s2 := AfterDecrement(s, b);
    StorageDecrement(s, b);
    SameLinksGraph(s.hs, s2.hs);
    ShrunkFurther(s0.hs, s.hs, b, s2.hs[b]);
    CountsDecremented(s.hs, s2.hs, s.held + multiset(rest), b);
    if CascadeTracked(s, rest + [b]) {
      TrackDecrement(s, rest, b);
    }
  }

  lemma TrackDecrement(s: Snapshot, rest: seq<nat>, b: nat)
    requires Links(s.hs) && Counts(s.hs, s.held + multiset(rest) + multiset{b})
    requires b < |s.hs| && s.hs[b].live && s.hs[b].owners > 1
    requires CascadeTracked(s, rest + [b])
    ensures CascadeTracked(AfterDecrement(s, b), rest)
  {
    hide Reach, EdgesFrom, CoveredFrom, Counts, Roots;
    var s2 := AfterDecrement(s, b);
    SameLinksGraph(s.hs, s2.hs);
    assert HeldSet(multiset(rest + [b])) == HeldSet(multiset(rest)) + {b};
    assert Roots(s.hs, s.candidates) + HeldSet(multiset(rest + [b]))
        == Roots(s.hs, s.candidates) + HeldSet(multiset(rest)) + {b};
    assert Candidate(b, s.hs[b].generation) in s2.candidates || !Notable(s.hs[b]);
    RootsGrow(s, b);
    CoverDecremented(s.hs, s2.hs, s.candidates, s2.candidates, s.held, multiset(rest), b);
  }

  lemma RootsGrow(s: Snapshot, b: nat)
    requires b < |s.hs| && s.hs[b].live && s.hs[b].owners > 1 && Buffered(s.hs, s.candidates)
    ensures Roots(s.hs, s.candidates) <= Roots(AfterDecrement(s, b).hs, AfterDecrement(s, b).candidates)
    ensures Notable(s.hs[b]) ==> b in Roots(AfterDecrement(s, b).hs, AfterDecrement(s, b).candidates)
  {
    var s2 := AfterDecrement(s, b);
    forall r | r in Roots(s.hs, s.candidates) ensures r in Roots(s2.hs, s2.candidates) {
      var c :| c in s.candidates && Current(s.hs, c) && s.hs[c.header].color == Purple && r == c.header;
      assert c in s2.candidates && Current(s2.hs, c);
    }
    if Notable(s.hs[b]) {
      var c := Candidate(b, s.hs[b].generation);
      assert c in s2.candidates && Current(s2.hs, c);
    }
  }

  lemma CascadeFree(s0: Snapshot, s: Snapshot, rest: seq<nat>, b: nat)
    requires Cascading(s0, s, rest + [b]) && b < |s.hs| && s.hs[b].owners == 1
    ensures s.hs[b].live && s.stats.liveObjects > 0
    ensures Cascading(s0, AfterFree(s, b), rest + Children(s.hs, b))
    ensures CascadeTracked(s, rest + [b]) ==> CascadeTracked(AfterFree(s, b), rest + Children(s.hs, b))
  {
    hide Reach, EdgesFrom, Storage, HonestFlags, Buffered, CoveredFrom, Roots, GraphOf, CascadeTracked,
      Shrunk, Settled, Links, Counts, Outlives, KeepsEdges, Removed, Children, BlockOk;
    PendingLast(s, rest, b);
    StorageFree(s, b);
    var s2 := AfterFree(s, b);
    var pending := multiset(rest);
    LastOwner(s.hs, s.held + pending, b);
    FreedOneGraph(s.hs, s2.hs, b);
    ShrunkFurther(s0.hs, s.hs, b, s2.hs[b]);
    KeepsFreed(s0.hs, s.hs, s2.hs, b);
    CountsFreed(s.hs, s2.hs, s.held + pending, b);
    assert s.held + pending + multiset(Children(s.hs, b)) == s.held + multiset(rest + Children(s.hs, b));
    OutlivesFree(s0, s, rest, b);
    if CascadeTracked(s, rest + [b]) {
      TrackFree(s, rest, b);
    }
  }

  lemma OutlivesFree(s0: Snapshot, s: Snapshot, rest: seq<nat>, b: nat)
    requires Links(s.hs) && Counts(s.hs, s.held + multiset(rest) + multiset{b})
    requires b < |s.hs| && s.hs[b].owners == 1
    requires s.held == s0.held && KeepsEdges(s0.hs, s.hs)
    requires Outlives(GraphOf(s0.hs), HeldSet(s0.held), LiveSet(s0.hs), LiveSet(s.hs))
    ensures Outlives(GraphOf(s0.hs), HeldSet(s0.held), LiveSet(s0.hs), LiveSet(s.hs) - {b})
  {
    var g := GraphOf(s0.hs);
    forall k: set<nat> | Supported(g, HeldSet(s0.held), k) && k <= LiveSet(s0.hs)
      ensures k <= LiveSet(s.hs) - {b}
    {
      SupportedSurvives(g, s.hs, s.held, multiset(rest), b, k);
    }
  }

  lemma TrackFree(s: Snapshot, rest: seq<nat>, b: nat)
    requires Storage(s) && Links(s.hs) && Counts(s.hs, s.held + multiset(rest) + multiset{b})
    requires b < |s.hs| && s.hs[b].live && s.hs[b].owners == 1 && s.stats.liveObjects > 0
    requires CascadeTracked(s, rest + [b])
    ensures CascadeTracked(AfterFree(s, b), rest + Children(s.hs, b))
  {
    hide Reach, EdgesFrom, Pool, CoveredFrom, Counts, Roots, Links, Children, HonestFlags, Storage;
    var s2 := AfterFree(s, b);
    LastOwner(s.hs, s.held + multiset(rest), b);
    FreedHonest(s.hs, s2.hs, {b});
    assert HeldSet(multiset(rest + [b])) == HeldSet(multiset(rest)) + {b};
    assert Roots(s.hs, s.candidates) + HeldSet(multiset(rest + [b]))
        == Roots(s.hs, s.candidates) + HeldSet(multiset(rest)) + {b};
    CoverFreed(s.hs, s2.hs, s.candidates, s.held, multiset(rest), b);
    assert multiset(rest) + multiset(Children(s.hs, b)) == multiset(rest + Children(s.hs, b));
  }

  /** A pending release is of a live object with owners: the skip test never fires. */
  lemma CascadeSkipsNothing(s0: Snapshot, s: Snapshot, work: seq<nat>, b: nat)
    requires Cascading(s0, s, work) && b in work
    ensures b < |s.hs| && s.hs[b].live && s.hs[b].owners > 0
    ensures s.log == s0.log && s.held == s0.held
  {
    assert b in s.held + multiset(work);
  }

  lemma PendingLast(s: Snapshot, rest: seq<nat>, b: nat)
    requires Counts(s.hs, s.held + multiset(rest + [b]))
    ensures b < |s.hs| && s.hs[b].live && s.hs[b].owners > 0
    ensures s.held + multiset(rest + [b]) == s.held + multiset(rest) + multiset{b}
  {
    assert b in s.held + multiset(rest + [b]);
  }
}
