/** What each operation of the generational heap does to a state, and why it keeps the invariants.
 */
module HeapSteps {
  import opened Graph
  import opened HeapCollect
  import opened HeapMarks
  import opened HeapPool
  import opened HeapRelease
  import opened HeapSnapshot
  import opened HeapState
  import opened Wrappers

  // ------------------------------------------------------------------ effects

  /** `gr_new`: an allocation no handle has ever named before. */
  ghost predicate NewEffect(s: Snapshot, kind: GrType, r: Ref, s2: Snapshot) {
    && r.Handle? && !Alive(s.hs, r) && Alive(s2.hs, r)
    && (r.target, r.generation) !in s.log && s2.log == s.log + {(r.target, r.generation)}
    && s2.held == s.held + multiset{r.target} && s2.candidates == s.candidates
    && |s.hs| <= |s2.hs|
    && (forall b :: 0 <= b < |s2.hs| && b != r.target ==>
          if b < |s.hs| then s2.hs[b] == s.hs[b] else !s2.hs[b].live && s2.hs[b].kind.None?)
    && s2.hs[r.target].kind == Some(kind) && s2.hs[r.target].owners == 1
    && s2.hs[r.target].color == Black && !s2.hs[r.target].buffered
    && s2.hs[r.target].fields == seq(kind.slots, _ => Null)
    && (r.target < |s.hs| ==> !s.hs[r.target].live && s.hs[r.target].kind.None?
                              && s.hs[r.target].generation == r.generation)
  }

  /** `gr_clone` of a live reference. */
  ghost predicate CloneEffect(s: Snapshot, r: Ref, s2: Snapshot) {
    && Alive(s.hs, r)
    && s2 == s.(hs := s.hs[r.target := s.hs[r.target].(owners := s.hs[r.target].owners + 1, color := Black)],
                held := s.held + multiset{r.target})
  }

  /** Storing the reference `r` in the empty owning field `i` of `src`. */
  ghost function Stored(hs: Headers, src: nat, i: nat, r: Ref): Headers
    requires src < |hs| && i < |hs[src].fields|
  {
    hs[src := hs[src].(fields := hs[src].fields[i := r])]
  }

  ghost predicate Slot(hs: Headers, src: nat, i: nat) {
    src < |hs| && hs[src].live && i < |hs[src].fields|
  }

  /** `vertex->edges[i] = handle`: the held unit of `r` becomes an owning edge. */
  ghost predicate MoveEffect(s: Snapshot, src: nat, i: nat, r: Ref, s2: Snapshot) {
    && Slot(s.hs, src, i) && s.hs[src].fields[i] == Null
    && Alive(s.hs, r) && r.target in s.held && s.hs[src].kind.Some? && s.hs[src].kind.value.traced
    && s2 == s.(hs := Stored(s.hs, src, i, r), held := s.held - multiset{r.target})
  }

  /** Reading an owning field into a handle and nulling it. */
  ghost predicate TakeEffect(s: Snapshot, src: nat, i: nat, r: Ref, s2: Snapshot) {
    && Slot(s.hs, src, i) && r == s.hs[src].fields[i] && r.Handle?
    && s2 == s.(hs := Stored(s.hs, src, i, Null), held := s.held + multiset{r.target})
  }

  /** `gr_drop` of a live handle: of the old objects exactly the greatest set survives in which
      each member is held by a remaining handle or owned by a member, and the survivors that lost an
      owner and can lie on a cycle become candidates. */
  ghost predicate DropEffect(s: Snapshot, r: Ref, s2: Snapshot) {
    && Alive(s.hs, r) && r.target in s.held
    && s2.held == s.held - multiset{r.target} && s2.log == s.log
    && s.candidates <= s2.candidates
    && Shrunk(s.hs, s2.hs)
    && Supported(GraphOf(s.hs), HeldSet(s2.held), LiveSet(s2.hs))
    && Outlives(GraphOf(s.hs), HeldSet(s2.held), LiveSet(s.hs), LiveSet(s2.hs))
    && Noticed(s.hs, s.candidates, s2.hs, s2.candidates)
  }

  /** The candidate subgraph of a collection. */
  ghost function CandidateSubgraph(s: Snapshot): set<nat> {
    ReachSet(GraphOf(s.hs), Roots(s.hs, s.candidates))
  }

  /** `gr_collect_cycles`. */
  ghost predicate CollectEffect(s: Snapshot, reclaimed: nat, s2: Snapshot) {
    var garbage := Garbage(s.hs, s.held, CandidateSubgraph(s));
    && s2.held == s.held && s2.log == s.log
    && Shrunk(s.hs, s2.hs)
    && LiveSet(s2.hs) == LiveSet(s.hs) - garbage
    && garbage <= LiveSet(s.hs) && reclaimed == |garbage|
    && s2.stats.cycleObjectsFreed == s.stats.cycleObjectsFreed + reclaimed
    && s2.stats.cycleCollections == s.stats.cycleCollections + 1
    && Remarked(s.hs, s.candidates, CandidateSubgraph(s), s2.hs, s2.candidates)
  }

  // ------------------------------------------------------------------ new

  /** One more block of a chunk. */
  ghost function AfterStock(s: Snapshot, c: nat): Snapshot
    requires c < |s.heads| == |s.lists|
  {
    s.(hs := s.hs + [StockedHeader(c, s.heads[c])], heads := s.heads[c := Some(|s.hs|)],
       lists := s.lists[c := [|s.hs|] + s.lists[c]])
  }

  /** The state after the head of free list `c` becomes a live object. */
  ghost function AfterTake(s: Snapshot, c: nat, kind: GrType): Snapshot
    requires Storage(s) && c < |s.heads| && s.heads[c].Some?
    requires BestClass(HEADER_BYTES + kind.size, c)
  {
    PoolTake(s.hs, s.heads, s.lists, s.log, c, kind);
    var b := s.heads[c].value;
    s.(hs := s.hs[b := NewHeader(s.hs[b], kind)], heads := s.heads[c := s.hs[b].nextFree],
       lists := s.lists[c := s.lists[c][1..]], log := s.log + {(b, s.hs[b].generation)},
       stats := s.stats.(liveObjects := s.stats.liveObjects + 1,
                         totalAllocations := s.stats.totalAllocations + 1))
  }

  lemma NewLive(hs: Headers, b: nat, kind: GrType)
    requires b < |hs| && !hs[b].live
    ensures LiveSet(hs[b := NewHeader(hs[b], kind)]) == LiveSet(hs) + {b}
    ensures |LiveSet(hs) + {b}| == |LiveSet(hs)| + 1
  {
    assert b !in LiveSet(hs);
  }

  lemma StorageTake(s: Snapshot, c: nat, kind: GrType)
    requires Storage(s) && c < |s.heads| && s.heads[c].Some?
    requires BestClass(HEADER_BYTES + kind.size, c)
    ensures Storage(AfterTake(s, c, kind))
    ensures var b := s.heads[c].value;
            b < |s.hs| && !s.hs[b].live && s.lists[c] != [] && (b, s.hs[b].generation) !in s.log
  {
    hide Pool, BestClass;
    PoolTake(s.hs, s.heads, s.lists, s.log, c, kind);
    var b := s.heads[c].value;
    NewLive(s.hs, b, kind);
    var p := (b, s.hs[b].generation);
    assert |s.log + {p}| == |s.log| + 1;
  }

  lemma StorageFacts(s: Snapshot)
    requires Storage(s)
    ensures |s.heads| == |s.lists| == MAX_CLASS + 1
    ensures forall b :: 0 <= b < |s.hs| ==>
              MIN_CLASS <= s.hs[b].classIndex <= MAX_CLASS && (s.hs[b].live <==> s.hs[b].kind.Some?)
    ensures s.stats.liveObjects == |LiveSet(s.hs)|
  {
    forall b | 0 <= b < |s.hs| ensures BlockOk(s.hs[b]) {
    }
  }

  lemma ReserveKeeps(s: Snapshot, bytes: nat)
    requires Storage(s)
    ensures Storage(s.(stats := s.stats.(bytesReserved := s.stats.bytesReserved + bytes)))
  {
    hide Pool;
  }

  lemma ReuseKeeps(s: Snapshot)
    requires Storage(s)
    ensures Storage(s.(stats := s.stats.(blocksReused := s.stats.blocksReused + 1)))
  {
    hide Pool;
  }

  lemma ConsistentMeans(s: Snapshot)
    requires Consistent(s)
    ensures Links(s.hs) && Counts(s.hs, s.held)
  {
  }

  lemma HoldKeeps(s: Snapshot, held: multiset<nat>)
    requires Storage(s)
    ensures Storage(s.(held := held))
  {
    hide Pool;
  }

  lemma AtLeastOne(a: nat, b: nat)
    requires a >= b > 0
    ensures a / b >= 1
  {
  }

  lemma StorageStock(s: Snapshot, c: nat)
    requires Storage(s) && MIN_CLASS <= c <= MAX_CLASS
    ensures Storage(AfterStock(s, c))
  {
    PoolStock(s.hs, s.heads, s.lists, s.log, c);
    assert LiveSet(AfterStock(s, c).hs) == LiveSet(s.hs);
  }

  lemma NewKeeps(s: Snapshot, kind: GrType, r: Ref, s2: Snapshot)
    requires Links(s.hs) && Counts(s.hs, s.held) && Settled(s.hs) && NewEffect(s, kind, r, s2)
    requires forall b :: |s.hs| <= b < |s2.hs| && b != r.target ==> s2.hs[b].color == Black
    ensures Links(s2.hs) && Counts(s2.hs, s2.held) && Settled(s2.hs)
  {
    NewGraph(s, kind, r, s2);
    NewCounts(s, kind, r, s2);
  }

  /** A new object is held, so nothing becomes unreachable. */
  lemma NewTracked(s: Snapshot, kind: GrType, r: Ref, s2: Snapshot)
    requires Links(s.hs) && Counts(s.hs, s.held) && NewEffect(s, kind, r, s2) && Tracked(s)
    ensures Tracked(s2)
  {
    hide Reach, EdgesFrom, Children, HonestFlags, Covered, Counts, Links;
    NewHonest(s, kind, r, s2);
    NewCovered(s, kind, r, s2);
  }

  lemma NewCounts(s: Snapshot, kind: GrType, r: Ref, s2: Snapshot)
    requires Links(s.hs) && Counts(s.hs, s.held) && NewEffect(s, kind, r, s2)
    ensures Counts(s2.hs, s2.held)
  {
    hide Reach, EdgesFrom, Links, Children;
    NewGraph(s, kind, r, s2);
    EdgesExtend(GraphOf(s.hs), GraphOf(s2.hs));
    NoEdgesToDead(s, kind, r, s2);
    forall b | b in LiveSet(s2.hs) ensures CountAt(s2.hs, s2.held, b) {
      if b != r.target {
        CountOf(s.hs, s.held, b);
      }
    }
    CountsFromAt(s2.hs, s2.held);
  }

  lemma NewGraph(s: Snapshot, kind: GrType, r: Ref, s2: Snapshot)
    requires Links(s.hs) && NewEffect(s, kind, r, s2)
    ensures Links(s2.hs)
    ensures forall b :: 0 <= b < |s2.hs| ==>
              GraphOf(s2.hs)[b] == if b < |s.hs| then GraphOf(s.hs)[b] else []
    ensures LiveSet(s2.hs) == LiveSet(s.hs) + {r.target}
  {
    hide FieldsOk, Children, NewEffect, LiveSet;
    NewLiveSet(s, kind, r, s2);
    forall b | 0 <= b < |s2.hs|
      ensures Children(s2.hs, b) == if b < |s.hs| then Children(s.hs, b) else []
      ensures s2.hs[b].live <==> s2.hs[b].kind.Some?
      ensures s2.hs[b].live ==> FieldsOk(s2.hs, s2.hs[b].fields, s2.hs[b].kind.value)
    {
      NewObject(s, kind, r, s2, b);
    }
  }

  lemma NewLiveSet(s: Snapshot, kind: GrType, r: Ref, s2: Snapshot)
    requires NewEffect(s, kind, r, s2)
    ensures |s.hs| <= |s2.hs| && LiveSet(s2.hs) == LiveSet(s.hs) + {r.target}
  {
  }

  lemma NewObject(s: Snapshot, kind: GrType, r: Ref, s2: Snapshot, b: nat)
    requires Links(s.hs) && NewEffect(s, kind, r, s2) && b < |s2.hs|
    ensures Children(s2.hs, b) == if b < |s.hs| then Children(s.hs, b) else []
    ensures s2.hs[b].live <==> s2.hs[b].kind.Some?
    ensures s2.hs[b].live ==> FieldsOk(s2.hs, s2.hs[b].fields, s2.hs[b].kind.value)
  {
    hide FieldsOk, Children;
    if b == r.target {
      FreshObject(s2.hs, b);
      if b < |s.hs| {
        NoObject(s.hs, b);
      }
    } else if b < |s.hs| && s.hs[b].live {
      OldObject(s.hs, s2.hs, r.target, b);
    } else {
      NoObject(s2.hs, b);
      if b < |s.hs| {
        NoObject(s.hs, b);
      }
    }
  }

  lemma FreshObject(hs: Headers, b: nat)
    requires b < |hs| && hs[b].kind.Some? && hs[b].fields == seq(hs[b].kind.value.slots, _ => Null)
    ensures Children(hs, b) == [] && FieldsOk(hs, hs[b].fields, hs[b].kind.value)
  {
    TraceNothing(hs, hs[b].fields);
  }

  lemma NoObject(hs: Headers, b: nat)
    requires b < |hs| && hs[b].kind.None?
    ensures Children(hs, b) == []
  {
  }

  /** Filling a dead block changes no other object's edges. */
  lemma OldObject(hs: Headers, hs2: Headers, dead: nat, b: nat)
    requires b < |hs| <= |hs2| && hs2[b] == hs[b] && hs[b].kind.Some?
    requires dead < |hs| ==> !hs[dead].live
    requires forall x :: 0 <= x < |hs| && x != dead ==> hs2[x] == hs[x]
    requires FieldsOk(hs, hs[b].fields, hs[b].kind.value)
    ensures Children(hs2, b) == Children(hs, b)
    ensures FieldsOk(hs2, hs2[b].fields, hs2[b].kind.value)
  {
    forall f | f in hs[b].fields ensures Alive(hs, f) <==> Alive(hs2, f) {
      assert f != Null ==> Alive(hs, f);
    }
    TraceFrame(hs, hs2, hs[b].fields);
  }

  lemma NoEdgesToDead(s: Snapshot, kind: GrType, r: Ref, s2: Snapshot)
    requires Links(s.hs) && Counts(s.hs, s.held) && NewEffect(s, kind, r, s2)
    ensures r.target !in Edges(GraphOf(s.hs)) && r.target !in s.held
  {
    var g := GraphOf(s.hs);
    LinksGraph(s.hs);
    EdgesMember(g, Vertices(g), r.target);
  }

  lemma NewHonest(s: Snapshot, kind: GrType, r: Ref, s2: Snapshot)
    requires Links(s.hs) && NewEffect(s, kind, r, s2) && HonestFlags(s.hs)
    ensures HonestFlags(s2.hs)
  {
    hide Children, Links;
    NewGraph(s, kind, r, s2);
    LinksGraph(s.hs);
    var g, g2 := GraphOf(s.hs), GraphOf(s2.hs);
    forall b | 0 <= b < |s2.hs| && s2.hs[b].live && s2.hs[b].kind.Some? && s2.hs[b].kind.value.acyclic
      ensures !OnCycle(g2, b)
    {
      if w :| w in g2[b] && Reach(g2, {w}, b) {
        ExtendedReach(g, g2, {w}, b);
      }
    }
  }

  lemma NewCovered(s: Snapshot, kind: GrType, r: Ref, s2: Snapshot)
    requires Links(s.hs) && NewEffect(s, kind, r, s2) && Covered(s) && Counts(s.hs, s.held)
    ensures Covered(s2)
  {
    hide Children, Links, Counts;
    NewGraph(s, kind, r, s2);
    var g, g2 := GraphOf(s.hs), GraphOf(s2.hs);
    var from, from2 := Roots(s.hs, s.candidates), Roots(s2.hs, s2.candidates);
    forall c | c in s.candidates && Current(s.hs, c) && s.hs[c.header].color == Purple
      ensures Current(s2.hs, c) && s2.hs[c.header].color == Purple
    {
    }
    assert from <= from2;
    forall u | u in Unreachable(s2.hs, s2.held) ensures Reach(g2, from2, u) {
      if u == r.target {
        ReachSource(g2, HeldSet(s2.held), u);
      } else {
        if Reach(g, HeldSet(s.held), u) {
          ReachMonotone(g, g2, HeldSet(s.held), u);
          SourcesMonotone(g2, HeldSet(s.held), HeldSet(s2.held), u);
        }
        assert u in Unreachable(s.hs, s.held);
        ReachMonotone(g, g2, from, u);
        SourcesMonotone(g2, from, from2, u);
      }
    }
  }

  /** Isolated new vertices open no path between old ones. */
  lemma ExtendedReach(g: Graph, g2: Graph, from: set<nat>, v: nat)
    requires WellFormed(g) && |g| <= |g2| && v < |g|
    requires forall b :: 0 <= b < |g2| ==> g2[b] == if b < |g| then g[b] else []
    requires Reach(g2, from, v) && from <= Vertices(g)
    ensures Reach(g, from, v)
  {
    var p :| PathFromTo(g2, from, p, v);
    forall w {:trigger w in Vertices(g)} | w in Vertices(g) ensures forall x :: x in g2[w] ==> x in Vertices(g) {
    }
    assert Closed(g2, Vertices(g));
    forall i | 0 <= i < |p| ensures p[i] < |g| {
      PathStaysInside(g2, p, Vertices(g), i);
    }
    forall i | 0 <= i < |p| - 1 ensures p[i + 1] in g[p[i]] {
    }
    assert PathFromTo(g, from, p, v);
  }

  // ------------------------------------------------------------------ clone

  /** Steps that neither allocate nor free keep the storage invariants. */
  lemma StorageSame(s: Snapshot, s2: Snapshot)
    requires Storage(s) && SameStorage(s.hs, s2.hs)
    requires s2 == s.(hs := s2.hs, held := s2.held)
    ensures Storage(s2)
  {
    PoolSameStorage(s.hs, s2.hs, s.heads, s.lists, s.log);
    assert LiveSet(s2.hs) == LiveSet(s.hs);
  }

  lemma CloneKeeps(s: Snapshot, r: Ref, s2: Snapshot)
    requires Consistent(s) && CloneEffect(s, r, s2)
    ensures Consistent(s2)
  {
    hide Storage, Children, Counts;
    SameLinksGraph(s.hs, s2.hs);
    StorageSame(s, s2);
    CloneCounts(s, r, s2);
  }

  lemma CloneCounts(s: Snapshot, r: Ref, s2: Snapshot)
    requires Counts(s.hs, s.held) && CloneEffect(s, r, s2)
    ensures Counts(s2.hs, s2.held)
  {
    hide EdgesFrom, Children;
    SameLinksGraph(s.hs, s2.hs);
    forall b | b in LiveSet(s2.hs) ensures CountAt(s2.hs, s2.held, b) {
      CountOf(s.hs, s.held, b);
    }
    CountsFromAt(s2.hs, s2.held);
  }

  /** Unmarking a reachable candidate uncovers nothing. */
  lemma CloneTracked(s: Snapshot, r: Ref, s2: Snapshot)
    requires Consistent(s) && CloneEffect(s, r, s2) && Tracked(s)
    ensures Tracked(s2)
  {
    hide Reach, EdgesFrom, Storage, Links, Counts, HonestFlags, CoveredFrom, Settled, Roots;
    SameLinksGraph(s.hs, s2.hs);
    CloneCovered(s, r, s2);
  }

  lemma CloneCovered(s: Snapshot, r: Ref, s2: Snapshot)
    requires Links(s.hs) && CloneEffect(s, r, s2) && Covered(s)
    ensures Covered(s2)
  {
    hide Reach, EdgesFrom, Links, GraphOf;
    SameLinksGraph(s.hs, s2.hs);
    LinksGraph(s.hs);
    var g := GraphOf(s.hs);
    var from, from2 := Roots(s.hs, s.candidates), Roots(s2.hs, s2.candidates);
    forall u | u in Unreachable(s2.hs, s2.held) ensures Reach(g, from2, u) {
      SourcesMonotoneIf(g, HeldSet(s.held), HeldSet(s2.held), u);
      assert u in Unreachable(s.hs, s.held);
      RootOf(s, u);
      var c :| c in s.candidates && Current(s.hs, c) && s.hs[c.header].color == Purple
               && Reach(g, {c.header}, u);
      if c.header == r.target {
        SourcesMonotone(g, {r.target}, HeldSet(s2.held), u);
      }
      assert Current(s2.hs, c) && c.header in from2;
      SourcesMonotone(g, {c.header}, from2, u);
    }
  }

  /** A covered unreachable object is reached from one particular candidate. */
  lemma RootOf(s: Snapshot, u: nat)
    requires Covered(s) && u in Unreachable(s.hs, s.held)
    ensures exists c :: c in s.candidates && Current(s.hs, c) && s.hs[c.header].color == Purple
                        && Reach(GraphOf(s.hs), {c.header}, u)
  {
    var h := ReachWitness(GraphOf(s.hs), Roots(s.hs, s.candidates), u);
    var c :| c in s.candidates && Current(s.hs, c) && s.hs[c.header].color == Purple && c.header == h;
  }

  // ------------------------------------------------------------------ storing and taking handles

  /** Filling an empty owning field adds exactly one edge. */
  lemma StoredGraph(hs: Headers, src: nat, i: nat, r: Ref)
    requires Links(hs) && Slot(hs, src, i) && hs[src].fields[i] == Null
    requires Alive(hs, r) && hs[src].kind.Some? && hs[src].kind.value.traced
    ensures Links(Stored(hs, src, i, r)) && LiveSet(Stored(hs, src, i, r)) == LiveSet(hs)
    ensures OneMoreEdge(GraphOf(hs), GraphOf(Stored(hs, src, i, r)), src, r.target)
  {
    hide FieldsOk, Children, Trace;
    var hs2 := Stored(hs, src, i, r);
    forall b | 0 <= b < |hs|
      ensures b != src ==> Children(hs2, b) == Children(hs, b)
      ensures hs2[b].live ==> FieldsOk(hs2, hs2[b].fields, hs2[b].kind.value)
    {
      StoredObject(hs, src, i, r, b);
    }
    StoredChildren(hs, src, i, r);
  }

  lemma StoredObject(hs: Headers, src: nat, i: nat, r: Ref, b: nat)
    requires Slot(hs, src, i) && b < |hs| && Alive(hs, r) && hs[src].kind.Some? && hs[src].kind.value.traced
    ensures var hs2 := Stored(hs, src, i, r);
            && (b != src ==> Children(hs2, b) == Children(hs, b))
            && (hs[b].kind.Some? && FieldsOk(hs, hs[b].fields, hs[b].kind.value) ==>
                  FieldsOk(hs2, hs2[b].fields, hs2[b].kind.value))
  {
    var hs2 := Stored(hs, src, i, r);
    TraceFrame(hs, hs2, hs[b].fields);
    assert forall f :: Alive(hs, f) ==> Alive(hs2, f);
  }

  lemma StoredChildren(hs: Headers, src: nat, i: nat, r: Ref)
    requires Slot(hs, src, i) && hs[src].fields[i] == Null
    requires Alive(hs, r) && hs[src].kind.Some? && hs[src].kind.value.traced
    ensures multiset(Children(Stored(hs, src, i, r), src)) == multiset(Children(hs, src)) + multiset{r.target}
  {
    var hs2 := Stored(hs, src, i, r);
    TraceStore(hs, hs[src].fields, i, r);
    TraceFrame(hs, hs2, hs2[src].fields);
  }

  lemma MoveKeeps(s: Snapshot, src: nat, i: nat, r: Ref, s2: Snapshot)
    requires Consistent(s) && MoveEffect(s, src, i, r, s2)
    ensures Consistent(s2)
  {
    hide Storage, Children, Counts;
    StorageSame(s, s2);
    StoredGraph(s.hs, src, i, r);
    StoredCounts(s.hs, s2.held, src, i, r);
    assert s2.held + multiset{r.target} == s.held;
  }

  /** The unit that was outside is an edge afterwards. */
  lemma StoredCounts(hs: Headers, outside: multiset<nat>, src: nat, i: nat, r: Ref)
    requires Links(hs) && Slot(hs, src, i) && hs[src].fields[i] == Null
    requires Alive(hs, r) && hs[src].kind.Some? && hs[src].kind.value.traced
    ensures Counts(hs, outside + multiset{r.target}) <==> Counts(Stored(hs, src, i, r), outside)
  {
    hide EdgesFrom, Children, Links;
    var hs2 := Stored(hs, src, i, r);
    StoredGraph(hs, src, i, r);
    EdgesAppend(GraphOf(hs), GraphOf(hs2), src, r.target);
    if Counts(hs, outside + multiset{r.target}) {
      forall b | b in LiveSet(hs2) ensures CountAt(hs2, outside, b) {
        CountOf(hs, outside + multiset{r.target}, b);
      }
      forall b | b in outside ensures b in LiveSet(hs2) {
        assert b in outside + multiset{r.target};
      }
      CountsFromAt(hs2, outside);
    }
    if Counts(hs2, outside) {
      forall b | b in LiveSet(hs) ensures CountAt(hs, outside + multiset{r.target}, b) {
        CountOf(hs2, outside, b);
      }
      CountsFromAt(hs, outside + multiset{r.target});
    }
  }

  lemma TakeKeeps(s: Snapshot, src: nat, i: nat, r: Ref, s2: Snapshot)
    requires Consistent(s) && TakeEffect(s, src, i, r, s2)
    ensures Consistent(s2)
    ensures Alive(s2.hs, r) && s.hs == Stored(s2.hs, src, i, r)
    ensures OneMoreEdge(GraphOf(s2.hs), GraphOf(s.hs), src, r.target)
  {
    hide Storage, Children, Counts;
    StorageSame(s, s2);
    EmptiedLinks(s, src, i, r, s2);
    StoredGraph(s2.hs, src, i, r);
    StoredCounts(s2.hs, s.held, src, i, r);
  }

  lemma EmptiedLinks(s: Snapshot, src: nat, i: nat, r: Ref, s2: Snapshot)
    requires Links(s.hs) && TakeEffect(s, src, i, r, s2)
    ensures Links(s2.hs) && Alive(s2.hs, r) && s.hs == Stored(s2.hs, src, i, r)
    ensures LiveSet(s2.hs) == LiveSet(s.hs) && s2.hs[src].kind.Some? && s2.hs[src].kind.value.traced
  {
    assert r in s.hs[src].fields;
    assert s2.hs[src].fields[i := r] == s.hs[src].fields;
    assert Stored(s2.hs, src, i, r)[src] == s.hs[src];
    assert Stored(s2.hs, src, i, r) == s.hs;
    forall b | 0 <= b < |s.hs| && s2.hs[b].live
      ensures FieldsOk(s2.hs, s2.hs[b].fields, s2.hs[b].kind.value)
    {
      assert FieldsOk(s.hs, s.hs[b].fields, s.hs[b].kind.value);
      forall f | f in s2.hs[b].fields && f != Null ensures f in s.hs[b].fields && Alive(s2.hs, f) {
      }
    }
  }

  ghost predicate SameCandidates(s: Snapshot, s2: Snapshot) {
    && s2.candidates == s.candidates && |s2.hs| == |s.hs|
    && forall b :: 0 <= b < |s.hs| ==>
        && s2.hs[b].live == s.hs[b].live && s2.hs[b].generation == s.hs[b].generation
        && s2.hs[b].color == s.hs[b].color && s2.hs[b].buffered == s.hs[b].buffered
  }

  lemma SameRoots(s: Snapshot, s2: Snapshot)
    requires SameCandidates(s, s2)
    ensures Roots(s2.hs, s2.candidates) == Roots(s.hs, s.candidates)
    ensures Buffered(s.hs, s.candidates) ==> Buffered(s2.hs, s2.candidates)
    ensures LiveSet(s2.hs) == LiveSet(s.hs)
  {
    assert forall c :: Current(s.hs, c) <==> Current(s2.hs, c);
  }

  /** The object stored into, or the object stored, can still be reached from the other handles or
      from the candidates. */
  ghost predicate StoreReached(s: Snapshot, src: nat, r: Ref, s2: Snapshot) {
    r.Handle? &&
    var from := HeldSet(s2.held) + Roots(s.hs, s.candidates);
    Reach(GraphOf(s.hs), from, src) || Reach(GraphOf(s.hs), from, r.target)
  }

  /** When moving a handle into a field keeps everything covered: exactly when one of the two objects
      is still reached without the edge.
      Moving the only handle of an object into a field of that object fails this. */
  lemma MoveCoveredExactly(s: Snapshot, src: nat, i: nat, r: Ref, s2: Snapshot)
    requires Consistent(s) && Covered(s) && MoveEffect(s, src, i, r, s2)
    ensures Covered(s2) <==> StoreReached(s, src, r, s2)
  {
    hide Reach, Children, Counts, EdgesFrom, Storage, Settled;
    var g, g2, t := GraphOf(s.hs), GraphOf(s2.hs), r.target;
    StoredGraph(s.hs, src, i, r);
    LinksGraph(s.hs);
    SameRoots(s, s2);
    var roots, held2 := Roots(s.hs, s.candidates), HeldSet(s2.held);
    var from := held2 + roots;
    assert HeldSet(s.held) == held2 + {t};
    forall u ensures Reach(g2, from, u) <==> Reach(g2, held2, u) || Reach(g2, roots, u) {
      ReachUnion(g2, held2, roots, u);
    }
    if Reach(g, from, src) || Reach(g, from, t) {
      ReachOneMore(g, g2, src, t, from, t);
      forall u | u in LiveSet(s.hs) ensures Reach(g2, from, u) {
        CoveredMeans(s, u);
        SourcesMonotoneIf(g, HeldSet(s.held), from + {t}, u);
        SourcesMonotoneIf(g, roots, from + {t}, u);
        ReachOneMore(g, g2, src, t, from + {t}, u);
        LinksGraph(s2.hs);
        ReachThrough(g2, from, t, u);
      }
    } else {
      ReachOneMore(g, g2, src, t, from, t);
      assert t in LiveSet(s2.hs) && !Reach(g2, from, t);
    }
  }

  lemma CoveredMeans(s: Snapshot, u: nat)
    requires Covered(s) && u in LiveSet(s.hs)
    ensures Reach(GraphOf(s.hs), HeldSet(s.held), u) || Reach(GraphOf(s.hs), Roots(s.hs, s.candidates), u)
  {
    assert u in Unreachable(s.hs, s.held) || Reach(GraphOf(s.hs), HeldSet(s.held), u);
  }

  lemma ReachUnion(g: Graph, from: set<nat>, from2: set<nat>, u: nat)
    ensures Reach(g, from + from2, u) <==> Reach(g, from, u) || Reach(g, from2, u)
  {
    SourcesMonotoneIf(g, from, from + from2, u);
    SourcesMonotoneIf(g, from2, from + from2, u);
    if Reach(g, from + from2, u) {
      var h := ReachWitness(g, from + from2, u);
      SourcesMonotoneIf(g, {h}, if h in from then from else from2, u);
    }
  }

  /** Storing a handle where something still reaches keeps the run invariant. */
  lemma MoveTracked(s: Snapshot, src: nat, i: nat, r: Ref, s2: Snapshot)
    requires Consistent(s) && Tracked(s) && MoveEffect(s, src, i, r, s2)
    requires StoreReached(s, src, r, s2) && HonestFlags(s2.hs)
    ensures Tracked(s2)
  {
    hide Reach, HonestFlags, Counts, Pool, StoreReached;
    MoveCoveredExactly(s, src, i, r, s2);
    SameRoots(s, s2);
  }

  /** Taking an owning field out of an object keeps the run invariant. */
  lemma TakeTracked(s: Snapshot, src: nat, i: nat, r: Ref, s2: Snapshot)
    requires Consistent(s) && Tracked(s) && TakeEffect(s, src, i, r, s2)
    ensures Tracked(s2)
  {
    hide Reach, Children, Counts, EdgesFrom, Pool;
    var g, g2, t := GraphOf(s.hs), GraphOf(s2.hs), r.target;
    TakeKeeps(s, src, i, r, s2);
    LinksGraph(s2.hs);
    SameRoots(s, s2);
    var roots, held2 := Roots(s.hs, s.candidates), HeldSet(s2.held);
    assert held2 == HeldSet(s.held) + {t};
    forall u | u in Unreachable(s2.hs, s2.held) ensures Reach(g2, roots, u) {
      CoveredMeans(s, u);
      ReachOneMore(g2, g, src, t, HeldSet(s.held), u);
      ReachOneMore(g2, g, src, t, roots, u);
      ReachUnion(g2, roots, {t}, u);
      SourcesMonotoneIf(g2, {t}, held2, u);
    }
    FewerEdgesHonest(s.hs, s2.hs, src, t);
  }

  lemma FewerEdgesHonest(hs: Headers, hs2: Headers, v: nat, w: nat)
    requires HonestFlags(hs) && |hs2| == |hs| && OneMoreEdge(GraphOf(hs2), GraphOf(hs), v, w)
    requires WellFormed(GraphOf(hs2)) && w < |hs|
    requires forall b :: 0 <= b < |hs| ==> hs2[b].kind == hs[b].kind && hs2[b].live == hs[b].live
    ensures HonestFlags(hs2)
  {
    hide Children;
    var g, g2 := GraphOf(hs), GraphOf(hs2);
    forall b | 0 <= b < |hs2| && hs2[b].live && hs2[b].kind.Some? && hs2[b].kind.value.acyclic
      ensures !OnCycle(g2, b)
    {
      if x :| x in g2[b] && Reach(g2, {x}, b) {
        ReachOneMore(g2, g, v, w, {x}, b);
        OneMoreEdgeMembers(g2, g, v, w, b, x);
      }
    }
  }

  // ------------------------------------------------------------------ new and drop, assembled

  /** Stocking a free list only appends dead blocks. */
  lemma OldOrStocked(s: Snapshot, kind: GrType, r: Ref, s2: Snapshot)
    requires Consistent(s) && r.Handle? && r.target < |s2.hs| && |s.hs| <= |s2.hs|
    requires s2.hs[r.target].live && s2.hs[r.target].generation == r.generation
    requires (r.target, r.generation) !in s.log && s2.log == s.log + {(r.target, r.generation)}
    requires s2.held == s.held + multiset{r.target} && s2.candidates == s.candidates
    requires forall b :: 0 <= b < |s2.hs| && b != r.target ==>
               if b < |s.hs| then s2.hs[b] == s.hs[b] else !s2.hs[b].live && s2.hs[b].kind.None?
    requires r.target < |s.hs| ==>
               !s.hs[r.target].live && s.hs[r.target].generation == r.generation
    requires s2.hs[r.target].kind == Some(kind) && s2.hs[r.target].owners == 1
    requires s2.hs[r.target].color == Black && !s2.hs[r.target].buffered
    requires s2.hs[r.target].fields == seq(kind.slots, _ => Null)
    ensures NewEffect(s, kind, r, s2)
  {
    assert r.target < |s.hs| ==> BlockOk(s.hs[r.target]);
  }

  lemma DropStarts(s: Snapshot, r: Ref)
    requires Consistent(s) && Alive(s.hs, r) && r.target in s.held
    ensures var s0 := s.(held := s.held - multiset{r.target});
            Cascading(s0, s0, [r.target]) && (Tracked(s) ==> CascadeTracked(s0, [r.target]))
  {
    hide Pool, Links, Counts, Settled, Reach, EdgesFrom, Children;
    var s0 := s.(held := s.held - multiset{r.target});
    assert s0.held + multiset([r.target]) == s.held;
    assert HeldSet(multiset([r.target])) == {r.target};
    assert HeldSet(s.held) == HeldSet(s0.held) + {r.target};
    if Tracked(s) {
      var g, from := GraphOf(s.hs), Roots(s.hs, s.candidates);
      forall u | u in Unreachable(s0.hs, s0.held)
        ensures Reach(g, from + HeldSet(multiset([r.target])), u)
      {
        CoveredMeans(s, u);
        ReachUnion(g, HeldSet(s0.held), {r.target}, u);
        ReachUnion(g, from, {r.target}, u);
      }
    }
  }

  lemma DropEnds(s: Snapshot, r: Ref, s2: Snapshot)
    requires Consistent(s) && Alive(s.hs, r) && r.target in s.held
    requires Cascading(s.(held := s.held - multiset{r.target}), s2, [])
    requires Tracked(s) ==> CascadeTracked(s2, [])
    requires Noticed(s.hs, s.candidates, s2.hs, s2.candidates)
    ensures Consistent(s2) && DropEffect(s, r, s2)
    ensures Tracked(s) ==> Tracked(s2)
  {
    hide Pool, Reach, EdgesFrom, Children, Noticed;
    assert s2.held + multiset([]) == s2.held;
    assert Roots(s2.hs, s2.candidates) + HeldSet(multiset([])) == Roots(s2.hs, s2.candidates);
    SurvivorsSupported(s.hs, s2.hs, s2.held);
  }

  /** Exact counts make the survivors a supported set of the old graph. */
  lemma SurvivorsSupported(hs: Headers, hs2: Headers, held: multiset<nat>)
    requires Links(hs2) && Counts(hs2, held) && KeepsEdges(hs, hs2)
    ensures Supported(GraphOf(hs), HeldSet(held), LiveSet(hs2))
  {
    hide Reach, EdgesFrom, Children;
    var g, g2 := GraphOf(hs), GraphOf(hs2);
    LinksGraph(hs2);
    forall v | v in LiveSet(hs2) && v !in held ensures exists u :: u in LiveSet(hs2) && u < |g| && v in g[u] {
      CountOf(hs2, held, v);
      EdgesMember(g2, Vertices(g2), v);
      var u :| 0 <= u < |g2| && u in Vertices(g2) && v in g2[u];
      assert u in LiveSet(hs2) && v in g[u];
    }
  }

  /** The state after a failed generation check. */
  ghost function Failed(s: Snapshot): Snapshot {
    s.(stats := s.stats.(failedChecks := s.stats.failedChecks + 1))
  }

  lemma FailedKeeps(s: Snapshot)
    ensures Consistent(s) ==> Consistent(Failed(s))
    ensures Tracked(s) ==> Tracked(Failed(s))
  {
    hide Pool, Links, Counts, Reach, HonestFlags, CoveredFrom;
  }

  // ------------------------------------------------------------------ collect, assembled

  lemma DecrementReleases(hs0: Headers, s: Snapshot, released: multiset<nat>, n: nat)
    requires GroupReleased(hs0, s.hs, released) && n < |s.hs| && s.hs[n].live
    requires hs0[n].owners > released[n] && hs0[n].color != White
    ensures s.hs[n].owners > 0
    ensures GroupReleased(hs0, AfterDecrement(s, n).hs, released + multiset{n})
    ensures Buffered(s.hs, s.candidates) ==>
              Buffered(AfterDecrement(s, n).hs, AfterDecrement(s, n).candidates)
  {
  }

  lemma FreedGrows(hs0: Headers, s: Snapshot, dead: set<nat>, b: nat)
    requires Storage(s) && GroupFreed(hs0, s.hs, dead)
    requires b < |s.hs| && s.hs[b].live && b !in dead && s.stats.liveObjects > 0
    ensures GroupFreed(hs0, AfterFree(s, b).hs, dead + {b})
  {
    hide Storage;
  }

  lemma CollectionMeans(s: Snapshot)
    requires Consistent(s)
    ensures Links(s.hs) && Counts(s.hs, s.held) && Settled(s.hs)
    ensures forall b :: 0 <= b < |s.hs| && s.hs[b].live ==> s.hs[b].owners > 0
    ensures forall c :: c in s.candidates ==> c.header < |s.hs|
    ensures Roots(s.hs, s.candidates) <= LiveSet(s.hs)
  {
    hide Pool, Links, EdgesFrom, Children;
  }

  lemma StatsKeep(s: Snapshot, stats: Stats)
    requires Storage(s)
    requires stats == s.stats.(failedChecks := stats.failedChecks, cycleCollections := stats.cycleCollections,
                               cycleObjectsFreed := stats.cycleObjectsFreed,
                               bytesReserved := stats.bytesReserved, blocksReused := stats.blocksReused)
    ensures Storage(s.(stats := stats))
  {
    hide Pool;
  }

  /** After the filter. */
  lemma FilterKeeps(s: Snapshot, s2: Snapshot)
    requires Consistent(s) && Storage(s)
    requires Filtered(s.hs, s2.hs, CurrentBlocks(s.hs, s.candidates))
    requires s2 == s.(hs := s2.hs, candidates := [], stats := s2.stats)
    requires s2.stats == s.stats.(cycleCollections := s2.stats.cycleCollections)
    ensures Storage(s2)
    ensures SameLinks(s.hs, s2.hs) && GraphOf(s2.hs) == GraphOf(s.hs) && LiveSet(s2.hs) == LiveSet(s.hs)
    ensures Links(s2.hs) && Counts(s2.hs, s2.held) && Settled(s2.hs)
  {
    hide Pool, Reach, EdgesFrom, Children, CurrentBlocks, Links;
    FilteredMeans(s.hs, s2.hs, s.candidates, s.held);
    assert Storage(s.(stats := s2.stats)) by {
      StatsKeep(s, s2.stats);
    }
    FilterStorage(s.(stats := s2.stats), s2);
  }

  lemma FilterStorage(s: Snapshot, s2: Snapshot)
    requires Storage(s) && s2 == s.(hs := s2.hs, candidates := [])
    requires exists seen :: Filtered(s.hs, s2.hs, seen)
    ensures Storage(s2)
  {
    var seen :| Filtered(s.hs, s2.hs, seen);
    FilteredStorage(s, s2, seen);
    StorageSame(s.(candidates := []), s2);
  }

  lemma FilteredStorage(s: Snapshot, s2: Snapshot, seen: set<nat>)
    requires Storage(s) && Filtered(s.hs, s2.hs, seen)
    ensures SameStorage(s.hs, s2.hs)
  {
    forall b | 0 <= b < |s.hs| && !s.hs[b].live ensures s2.hs[b] == s.hs[b] {
      assert BlockOk(s.hs[b]);
    }
  }

  /** After the scan. */
  lemma MarkKeeps(s: Snapshot, hs0: Headers, s4: Snapshot, group: set<nat>)
    requires Filtered(s.hs, hs0, CurrentBlocks(s.hs, s.candidates))
    requires Storage(s4.(hs := hs0)) && s4.candidates == []
    requires Sorted(hs0, s4.hs, Garbage(hs0, s.held, group)) && Repainted(hs0, s4.hs, group)
    requires group <= LiveSet(hs0) && Roots(s.hs, s.candidates) <= group
    ensures Storage(s4)
    ensures Buffered(s.hs, s.candidates) ==> Buffered(s4.hs, s4.candidates)
  {
    hide Storage, Reach, EdgesFrom, Children, Garbage;
    assert SameStorage(hs0, s4.hs) by {
      forall b | 0 <= b < |hs0| && !hs0[b].live ensures s4.hs[b] == hs0[b] {
        assert b !in group;
      }
    }
    StorageSame(s4.(hs := hs0), s4);
    if Buffered(s.hs, s.candidates) {
      FilteredMeans(s.hs, hs0, s.candidates, s.held);
      forall b | 0 <= b < |s4.hs| && s4.hs[b].live ensures s4.hs[b].color != Purple && !s4.hs[b].buffered {
        if s.hs[b].color == Purple {
          assert Current(s.hs, Candidate(b, s.hs[b].generation));
          assert b in Roots(s.hs, s.candidates);
        }
      }
    }
  }

  lemma CollectionEnds(s: Snapshot, hs0: Headers, s2: Snapshot, group: set<nat>)
    requires Consistent(s) && SameLinks(s.hs, hs0) && GraphOf(hs0) == GraphOf(s.hs) && LiveSet(hs0) == LiveSet(s.hs)
    requires group == CandidateSubgraph(s) && s2.held == s.held
    requires Storage(s2) && Collected(hs0, s2.hs, s.held, group)
    requires Buffered(s.hs, s.candidates) ==> Buffered(s2.hs, s2.candidates)
    ensures Consistent(s2)
    ensures Tracked(s) ==> Tracked(s2)
  {
    hide Storage, Links, Counts, Reach, EdgesFrom, Children, Garbage, Buffered;
    SameLinksGraph(s.hs, hs0);
    SameGarbage(s.hs, hs0, s.held, group);
    if Tracked(s) {
      NothingUnreachable(s, s2, group);
    }
  }

  lemma SameGarbage(hs: Headers, hs0: Headers, held: multiset<nat>, group: set<nat>)
    requires GraphOf(hs0) == GraphOf(hs) && LiveSet(hs0) == LiveSet(hs)
    ensures Garbage(hs0, held, group) == Garbage(hs, held, group) <= group
  {
    hide Reach, Children;
  }

  /** After a complete collection everything alive is reachable. */
  lemma NothingUnreachable(s: Snapshot, s2: Snapshot, group: set<nat>)
    requires Links(s.hs) && Counts(s.hs, s.held) && Covered(s) && group == CandidateSubgraph(s)
    requires |s2.hs| == |s.hs| && s2.held == s.held
    requires LiveSet(s2.hs) == LiveSet(s.hs) - Garbage(s.hs, s.held, group)
    requires forall b :: 0 <= b < |s.hs| ==>
               GraphOf(s2.hs)[b] == if b in Garbage(s.hs, s.held, group) then [] else GraphOf(s.hs)[b]
    ensures Unreachable(s2.hs, s2.held) == {}
  {
    hide Links, Counts, Reach, EdgesFrom, Children, Garbage;
    var g, g2, roots := GraphOf(s.hs), GraphOf(s2.hs), Roots(s.hs, s.candidates);
    var reached := ReachSet(g, HeldSet(s.held));
    GarbageIsEverything(s.hs, s.held, roots);
    LinksGraph(s.hs);
    ReachSetClosed(g, HeldSet(s.held));
    HeldSetLive(s.hs, s.held);
    GarbageIsUnreachable(s.hs, s.held, group);
    forall u | u in LiveSet(s2.hs) ensures Reach(g2, HeldSet(s2.held), u) {
      assert u !in Unreachable(s.hs, s.held);
      ReachTransfers(g, g2, HeldSet(s.held), reached, u);
    }
  }

  lemma CollectionMarks(s: Snapshot, hs0: Headers, hs4: Headers, s2: Snapshot, group: set<nat>)
    requires Filtered(s.hs, hs0, CurrentBlocks(s.hs, s.candidates))
    requires Sorted(hs0, hs4, Garbage(hs0, s.held, group)) && Repainted(hs0, hs4, group)
    requires Noticed(hs4, [], s2.hs, s2.candidates) && forall c :: c in s2.candidates[0..] ==> Current(s2.hs, c)
    requires Collected(hs0, s2.hs, s.held, group)
    ensures Remarked(s.hs, s.candidates, group, s2.hs, s2.candidates)
  {
    hide Filtered, Sorted, Repainted, Noticed, CurrentBlocks, Garbage, Remarked, Settled, Links, Counts, HonestFlags,
         Shrunk;
    var garbage := Garbage(hs0, s.held, group);
    assert s2.candidates[0..] == s2.candidates;
    forall b | b in garbage && b < |s2.hs| ensures !s2.hs[b].live {
      assert b !in LiveSet(s2.hs);
    }
    RemarkedBy(s.hs, s.candidates, group, garbage, hs0, hs4, s2.hs, s2.candidates);
  }

  lemma CollectionEffect(s: Snapshot, hs0: Headers, s2: Snapshot, group: set<nat>, reclaimed: nat)
    requires Consistent(s) && SameLinks(s.hs, hs0) && GraphOf(hs0) == GraphOf(s.hs) && LiveSet(hs0) == LiveSet(s.hs)
    requires group == CandidateSubgraph(s) && s2.held == s.held && s2.log == s.log
    requires Collected(hs0, s2.hs, s.held, group) && reclaimed == |Garbage(hs0, s.held, group)|
    requires s2.stats.cycleObjectsFreed == s.stats.cycleObjectsFreed + reclaimed
    requires s2.stats.cycleCollections == s.stats.cycleCollections + 1
    requires Remarked(s.hs, s.candidates, group, s2.hs, s2.candidates)
    ensures CollectEffect(s, reclaimed, s2)
  {
    hide Remarked, Storage, Links, Counts, Reach, EdgesFrom, HonestFlags, GraphOf, Garbage, Roots, CandidateSubgraph,
      Settled;
    SameGarbage(s.hs, hs0, s.held, group);
    GroupLive(s);
    AgedFrom(s.hs, hs0, s2.hs);
  }

  lemma GroupLive(s: Snapshot)
    requires Links(s.hs)
    ensures CandidateSubgraph(s) <= LiveSet(s.hs)
  {
    hide Links, Reach, EdgesFrom;
    RootsLive(s.hs, s.candidates);
    forall b | b in CandidateSubgraph(s) ensures b in LiveSet(s.hs) {
      ReachLive(s.hs, Roots(s.hs, s.candidates), b);
    }
  }

  lemma RootsLive(hs: Headers, candidates: seq<Candidate>)
    ensures Roots(hs, candidates) <= LiveSet(hs)
  {
  }

  lemma AgedFrom(hs: Headers, hs0: Headers, hs2: Headers)
    requires SameLinks(hs, hs0) && Shrunk(hs0, hs2)
    ensures Shrunk(hs, hs2)
  {
    forall b | 0 <= b < |hs| ensures Aged(hs[b], hs2[b]) {
      assert Aged(hs0[b], hs2[b]);
    }
  }
}
