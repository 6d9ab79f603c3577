/** The generational heap itself (experiments/genref/genref.c): a pool allocator with owner counts,
    an iterative release cascade and a trial-deletion cycle collector, all updating its fields in
    place.  Each method is tied to the effects of HeapSteps; why they are right is proved there.
 */
module Heap {
  import opened Graph
  import opened HeapCollect
  import opened HeapMarks
  import opened HeapPool
  import opened HeapRelease
  import opened HeapSnapshot
  import opened HeapState
  import opened HeapSteps
  import opened Wrappers

  /** Why the C code would abort the program. */
  datatype Abort = BadType | TooLarge | Released | Stale

  /** `class_index_for`: the least class that fits, or none when even the largest does not. */
  method ClassIndexFor(totalBytes: nat) returns (r: Option<nat>)
    ensures r.Some? <==> totalBytes <= Pow2(MAX_CLASS)
    ensures r.Some? ==> BestClass(totalBytes, r.value)
  {
    hide Pow2;
    var index := MIN_CLASS;
    var size := Pow2(MIN_CLASS);
    while size < totalBytes
      invariant MIN_CLASS <= index <= MAX_CLASS && size == Pow2(index)
      invariant index == MIN_CLASS || Pow2(index - 1) < totalBytes
      decreases MAX_CLASS - index
    {
      if index == MAX_CLASS {
        return None;
      }
      Pow2Next(index);
      size := size * 2;
      index := index + 1;
    }
    Pow2Monotone(index, MAX_CLASS);
    return Some(index);
  }

  /** The bytes of a chunk for one size class. */
  ghost function ChunkBytes(c: nat): nat {
    if Pow2(c) > Pow2(CHUNK_CLASS) then Pow2(c) else Pow2(CHUNK_CLASS)
  }

  /** How many blocks it is cut into. */
  ghost function BlockCount(c: nat): nat {
    ChunkBytes(c) / Pow2(c)
  }

  ghost function Reserving(stats: Stats, c: nat): Stats {
    stats.(bytesReserved := stats.bytesReserved + ChunkBytes(c))
  }

  ghost function Allocating(stats: Stats): Stats {
    stats.(liveObjects := stats.liveObjects + 1, totalAllocations := stats.totalAllocations + 1)
  }

  /** The counters after an allocation: a block is reused when the free list of its class has one, and
      a chunk is reserved otherwise. */
  ghost function Charged(stats: Stats, head: Option<nat>, c: nat): Stats {
    Allocating(if head.None? then Reserving(stats, c) else stats.(blocksReused := stats.blocksReused + 1))
  }

  ghost predicate Accounted(before: Stats, heads: Heads, bytes: nat, after: Stats) {
    exists c: nat :: BestClass(bytes, c) && c < |heads| && after == Charged(before, heads[c], c)
  }

  class Heap {
    var headers: Headers
    var freeHeads: Heads
    var candidates: seq<Candidate>
    var stats: Stats
    ghost var freeLists: seq<seq<nat>>
    ghost var log: set<(nat, nat)>
    ghost var held: multiset<nat>

    ghost function Now(): Snapshot
      reads this
    {
      Snapshot(headers, freeHeads, candidates, stats, freeLists, log, held)
    }

    ghost predicate Valid()
      reads this
    {
      Consistent(Now())
    }

    constructor ()
      ensures Now() == Initial() && Valid() && Tracked(Now())
    {
      headers, candidates, stats := [], [], Stats(0, 0, 0, 0, 0, 0, 0, 0);
      freeHeads := seq(MAX_CLASS + 1, _ => None);
      freeLists := seq(MAX_CLASS + 1, _ => []);
      log, held := {}, multiset{};
      new;
      InitialConsistent();
    }

    // ---------------------------------------------------------------- pool

    /** `stock_free_list`: a fresh chunk, cut into dead blocks of generation 1. */
    method StockFreeList(c: nat)
      requires Storage(Now()) && MIN_CLASS <= c <= MAX_CLASS
      modifies this`headers, this`freeHeads, this`freeLists, this`stats
      ensures Storage(Now()) && |freeHeads| == MAX_CLASS + 1 && freeHeads[c].Some?
      ensures |headers| == |old(headers)| + BlockCount(c) && headers[..|old(headers)|] == old(headers)
      ensures forall b :: |old(headers)| <= b < |headers| ==>
                !headers[b].live && headers[b].kind.None? && headers[b].color == Black
      ensures stats == Reserving(old(stats), c)
    {
      hide Storage, Pow2;
      StorageFacts(Now());
      var blockBytes := Pow2(c);
      var chunkBytes := if blockBytes > Pow2(CHUNK_CLASS) then blockBytes else Pow2(CHUNK_CLASS);
      AtLeastOne(chunkBytes, blockBytes);
      ReserveKeeps(Now(), chunkBytes);
      stats := stats.(bytesReserved := stats.bytesReserved + chunkBytes);
      StockBlocks(c, chunkBytes / blockBytes);
    }

    /** Its loop. */
    method StockBlocks(c: nat, blockCount: nat)
      requires Storage(Now()) && MIN_CLASS <= c <= MAX_CLASS && |freeHeads| == MAX_CLASS + 1
      modifies this`headers, this`freeHeads, this`freeLists
      ensures Storage(Now()) && |freeHeads| == MAX_CLASS + 1 && (blockCount > 0 ==> freeHeads[c].Some?)
      ensures |headers| == |old(headers)| + blockCount && headers[..|old(headers)|] == old(headers)
      ensures forall b :: |old(headers)| <= b < |headers| ==>
                !headers[b].live && headers[b].kind.None? && headers[b].color == Black
    {
      hide Storage;
      ghost var hs0 := headers;
      var index := 0;
      while index < blockCount
        invariant 0 <= index <= blockCount
        invariant Storage(Now()) && |freeHeads| == MAX_CLASS + 1
        invariant |headers| == |hs0| + index && headers[..|hs0|] == hs0
        invariant forall b :: |hs0| <= b < |headers| ==>
                    !headers[b].live && headers[b].kind.None? && headers[b].color == Black
        invariant index > 0 ==> freeHeads[c].Some?
      {
        StockBlock(c);
        index := index + 1;
      }
    }

    /** One block of the chunk: its header goes to the front of the free list. */
    method StockBlock(c: nat)
      requires Storage(Now()) && MIN_CLASS <= c <= MAX_CLASS && |freeHeads| == MAX_CLASS + 1
      modifies this`headers, this`freeHeads, this`freeLists
      ensures Storage(Now()) && |freeHeads| == MAX_CLASS + 1 && freeHeads[c].Some?
      ensures headers == old(headers) + [StockedHeader(c, old(freeHeads)[c])]
    {
      hide Storage;
      StorageFacts(Now());
      ghost var before := Now();
      StorageStock(before, c);
      var block := |headers|;
      headers := headers + [StockedHeader(c, freeHeads[c])];
      freeHeads := freeHeads[c := Some(block)];
      freeLists := freeLists[c := [block] + freeLists[c]];
      assert Now() == AfterStock(before, c);
    }

    /** `free_block`. */
    method FreeBlock(b: nat)
      requires Storage(Now()) && b < |headers| && headers[b].live
      modifies this`headers, this`freeHeads, this`freeLists, this`stats
      ensures old(stats.liveObjects) > 0 && Now() == AfterFree(old(Now()), b)
      ensures Storage(Now()) && LiveSet(headers) == LiveSet(old(headers)) - {b}
    {
      hide Storage, LiveSet;
      StorageFacts(Now());
      StorageFree(Now(), b);
      var c := headers[b].classIndex;
      headers := headers[b := headers[b].(generation := headers[b].generation + 1, live := false,
                                          buffered := false, color := Black, owners := 0,
                                          kind := None, nextFree := freeHeads[c])];
      freeHeads := freeHeads[c := Some(b)];
      freeLists := freeLists[c := [b] + freeLists[c]];
      stats := stats.(liveObjects := stats.liveObjects - 1, totalFrees := stats.totalFrees + 1);
    }

    /** `children_of`: calls the tracer, which reports each owning field in turn. */
    method ChildrenOf(b: nat) returns (out: seq<nat>)
      requires b < |headers|
      ensures out == Children(headers, b)
    {
      out := [];
      if headers[b].kind.None? || !headers[b].kind.value.traced {
        return;
      }
      var fields := headers[b].fields;
      var i := 0;
      while i < |fields|
        invariant 0 <= i <= |fields|
        invariant out == Trace(headers, fields[..i])
      {
        assert fields[..i + 1][..i] == fields[..i];
        if Alive(headers, fields[i]) {
          out := out + [fields[i].target];
        }
        i := i + 1;
      }
      assert fields[..|fields|] == fields;
    }

    // ---------------------------------------------------------------- allocation

    /** `gr_new`. */
    method New(kind: Option<GrType>) returns (r: Result<Ref, Abort>)
      requires Valid()
      modifies this
      ensures Valid()
      ensures r.Failure? ==> Now() == old(Now())
      ensures r.Failure? ==> r.error == BadType || r.error == TooLarge
      ensures r == Failure(BadType) <==> kind.None? || kind.value.size == 0
      ensures r == Failure(TooLarge) <==>
                kind.Some? && kind.value.size > 0 && HEADER_BYTES + kind.value.size > Pow2(MAX_CLASS)
      ensures r.Success? ==> NewEffect(old(Now()), kind.value, r.value, Now())
      ensures r.Success? ==>
                Accounted(old(stats), old(freeHeads), HEADER_BYTES + kind.value.size, stats)
      ensures r.Success? && old(Tracked(Now())) ==> Tracked(Now())
    {
      hide Consistent, Tracked, NewEffect, Accounted, Pow2, LiveSet, Storage, Links, Counts, Settled;
      if kind.None? || kind.value.size == 0 {
        return Failure(BadType);
      }
      var c := ClassIndexFor(HEADER_BYTES + kind.value.size);
      if c.None? {
        return Failure(TooLarge);
      }
      ghost var s := Now();
      ConsistentMeans(s);
      var ref := AllocateIn(c.value, kind.value);
      if Tracked(s) {
        NewTracked(s, kind.value, ref, Now());
      }
      return Success(ref);
    }

    /** `gr_new` for a type whose size class is known. */
    method AllocateIn(c: nat, kind: GrType) returns (r: Ref)
      requires Valid() && MIN_CLASS <= c <= MAX_CLASS && BestClass(HEADER_BYTES + kind.size, c)
      modifies this
      ensures Valid() && NewEffect(old(Now()), kind, r, Now())
      ensures Accounted(old(stats), old(freeHeads), HEADER_BYTES + kind.size, stats)
    {
      hide Storage, Links, Counts, Settled, LiveSet, NewEffect, BestClass, Pow2, ChunkBytes;
      StorageFacts(Now());
      ghost var s := Now();
      if freeHeads[c].None? {
        StockFreeList(c);
      } else {
        ReuseKeeps(Now());
        stats := stats.(blocksReused := stats.blocksReused + 1);
      }
      r := TakeBlock(c, kind);
      HoldKeeps(Now(), held + multiset{r.target});
      held := held + multiset{r.target};
      OldOrStocked(s, kind, r, Now());
      NewKeeps(s, kind, r, Now());
    }

    /** The rest of `gr_new`, once the free list of the class is stocked. */
    method TakeBlock(c: nat, kind: GrType) returns (r: Ref)
      requires Storage(Now()) && c < |freeHeads| && freeHeads[c].Some?
      requires BestClass(HEADER_BYTES + kind.size, c)
      modifies this`headers, this`freeHeads, this`freeLists, this`stats, this`log
      ensures Storage(Now())
      ensures r.Handle? && r.target < |old(headers)| && !old(headers)[r.target].live
      ensures r.generation == old(headers)[r.target].generation
      ensures headers == old(headers)[r.target := NewHeader(old(headers)[r.target], kind)]
      ensures old(freeHeads)[c] == Some(r.target)
      ensures freeHeads == old(freeHeads)[c := old(headers)[r.target].nextFree]
      ensures stats == Allocating(old(stats))
      ensures (r.target, r.generation) !in old(log) && log == old(log) + {(r.target, r.generation)}
    {
      hide Storage;
      StorageFacts(Now());
      StorageTake(Now(), c, kind);
      var b := freeHeads[c].value;
      freeHeads := freeHeads[c := headers[b].nextFree];
      freeLists := freeLists[c := freeLists[c][1..]];
      headers := headers[b := headers[b].(nextFree := None, kind := Some(kind), owners := 1,
                                          color := Black, live := true, buffered := false,
                                          trial := 0, fields := seq(kind.slots, _ => Null))];
      log := log + {(b, headers[b].generation)};
      stats := stats.(liveObjects := stats.liveObjects + 1, totalAllocations := stats.totalAllocations + 1);
      r := Handle(b, headers[b].generation);
    }

    /** `note_cycle_candidate`. */
    method NoteCycleCandidate(b: nat)
      requires b < |headers|
      modifies this`headers, this`candidates
      ensures headers == old(headers)[b := NotedHeader(old(headers)[b])]
      ensures candidates == NotedBuffer(old(candidates), b, old(headers)[b])
    {
      if headers[b].kind.None? || !headers[b].kind.value.traced || headers[b].kind.value.acyclic {
        return;
      }
      headers := headers[b := headers[b].(color := Purple)];
      if !headers[b].buffered {
        headers := headers[b := headers[b].(buffered := true)];
        candidates := candidates + [Candidate(b, headers[b].generation)];
      }
    }

    /** One round of `release_header`: drops one owner of `current`, and frees it with the last. */
    method ReleaseUnit(current: nat) returns (kids: seq<nat>)
      requires Storage(Now()) && current < |headers| && headers[current].live
      requires headers[current].owners > 0
      modifies this`headers, this`freeHeads, this`freeLists, this`stats, this`candidates
      ensures Storage(Now())
      ensures old(headers[current].owners) > 1 ==>
                kids == [] && Now() == AfterDecrement(old(Now()), current)
      ensures old(headers[current].owners) == 1 ==>
                && kids == Children(old(headers), current)
                && old(stats.liveObjects) > 0 && Now() == AfterFree(old(Now()), current)
      ensures |LiveSet(headers)| == |LiveSet(old(headers))| - if old(headers[current].owners) > 1 then 0 else 1
    {
      hide Storage, Children;
      ghost var s := Now();
      if headers[current].owners - 1 > 0 {
        StorageDecrement(s, current);
        headers := headers[current := headers[current].(owners := headers[current].owners - 1)];
        NoteCycleCandidate(current);
        assert headers == AfterDecrement(s, current).hs;
        assert LiveSet(headers) == LiveSet(s.hs);
        kids := [];
      } else {
        assert current in LiveSet(headers);
        kids := ChildrenOf(current);
        FreeBlock(current);
      }
    }

    /** `release_header`: a work list of pending releases, last in first out. */
    method ReleaseHeader(b: nat)
      requires Storage(Now()) && b < |headers| && headers[b].live
      requires headers[b].owners > 1 || Cascading(Now(), Now(), [b])
      modifies this`headers, this`freeHeads, this`freeLists, this`stats, this`candidates
      ensures Storage(Now())
      ensures old(headers[b].owners) > 1 ==> Now() == AfterDecrement(old(Now()), b)
      ensures old(Cascading(Now(), Now(), [b])) ==>
                && Cascading(old(Now()), Now(), [])
                && (CascadeTracked(old(Now()), [b]) ==> CascadeTracked(Now(), []))
      ensures Noticed(old(headers), old(candidates), headers, candidates)
    {
      hide Storage, Cascading, CascadeTracked, AfterDecrement, AfterFree, Children, LiveSet, Noticed;
      ghost var s0 := Now();
      NoticedStart(headers, candidates);
      ghost var counted := Cascading(s0, s0, [b]);
      var work := [b];
      while |work| > 0
        invariant Storage(Now())
        invariant counted ==> Cascading(s0, Now(), work)
        invariant counted && CascadeTracked(s0, [b]) ==> CascadeTracked(Now(), work)
        invariant Noticed(s0.hs, s0.candidates, headers, candidates)
        invariant s0.hs[b].owners > 1 ==>
                    (work == [b] && Now() == s0) || (work == [] && Now() == AfterDecrement(s0, b))
        decreases |LiveSet(headers)|, |work|
      {
        ghost var s, all := Now(), work;
        var current := work[|work| - 1];
        work := work[..|work| - 1];
        assert all == work + [current];
        if counted {
          CascadeSkipsNothing(s0, s, all, current);
        }
        // the skip test of the source never fires
        assert headers[current].live && headers[current].owners > 0;
        if headers[current].live && headers[current].owners != 0 {
          var kids := ReleaseUnit(current);
          if s.hs[current].owners > 1 {
            NoticedDecrement(s0.hs, s0.candidates, s, current);
            if counted {
              CascadeDecrement(s0, s, work, current);
            }
            assert work + kids == work;
          } else {
            NoticedFree(s0.hs, s0.candidates, s, current);
            CascadeFree(s0, s, work, current);
          }
          work := work + kids;
        }
      }
    }

    /** `gr_clone`. */
    method Clone(r: Ref) returns (res: Result<Ref, Abort>)
      requires Valid()
      modifies this`headers, this`stats, this`held
      ensures Valid()
      ensures r == Null ==> res == Success(Null) && Now() == old(Now())
      ensures r.Handle? && !Alive(old(headers), r) ==>
                && res == Failure(Released)
                && Now() == Failed(old(Now()))
      ensures Alive(old(headers), r) ==> res == Success(r) && CloneEffect(old(Now()), r, Now())
    {
      hide Consistent;
      FailedKeeps(Now());
      if r == Null {
        return Success(Null);
      }
      if !Alive(headers, r) {
        stats := stats.(failedChecks := stats.failedChecks + 1);
        return Failure(Released);
      }
      ghost var s := Now();
      headers := headers[r.target := headers[r.target].(owners := headers[r.target].owners + 1)];
      headers := headers[r.target := headers[r.target].(color := Black)];
      held := held + multiset{r.target};
      assert headers == s.hs[r.target := s.hs[r.target].(owners := s.hs[r.target].owners + 1, color := Black)];
      CloneKeeps(s, r, Now());
      return Success(r);
    }

    /** `gr_drop`: a live handle given to it must be one the program holds. */
    method Drop(r: Ref)
      requires Valid()
      requires Alive(headers, r) ==> r.target in held
      modifies this
      ensures Valid()
      ensures r == Null ==> Now() == old(Now())
      ensures r.Handle? && !Alive(old(headers), r) ==>
                Now() == Failed(old(Now()))
      ensures Alive(old(headers), r) ==> DropEffect(old(Now()), r, Now())
      ensures old(Tracked(Now())) ==> Tracked(Now())
    {
      hide Consistent, Tracked, Noticed;
      FailedKeeps(Now());
      if r == Null {
        return;
      }
      if !Alive(headers, r) {
        stats := stats.(failedChecks := stats.failedChecks + 1);
        return;
      }
      ghost var s := Now();
      held := held - multiset{r.target};
      DropStarts(s, r);
      ReleaseHeader(r.target);
      DropEnds(s, r, Now());
    }

    // ---------------------------------------------------------------- cycle collection

    /** Phase 1 of `gr_collect_cycles`: stale entries are skipped, the buffer is emptied. */
    method FilterCandidates() returns (roots: seq<nat>)
      requires forall b :: 0 <= b < |headers| && headers[b].live ==> headers[b].owners > 0
      requires forall c :: c in candidates ==> c.header < |headers|
      modifies this`headers, this`candidates
      ensures candidates == []
      ensures Elems(roots) == Roots(old(headers), old(candidates))
      ensures Filtered(old(headers), headers, CurrentBlocks(old(headers), old(candidates)))
    {
      hide Roots, CurrentBlocks;
      ghost var hs0 := headers;
      NoCandidates(hs0);
      roots := [];
      var index := 0;
      while index < |candidates|
        invariant 0 <= index <= |candidates| && candidates == old(candidates)
        invariant Filtered(hs0, headers, CurrentBlocks(hs0, candidates[..index]))
        invariant Elems(roots) == Roots(hs0, candidates[..index])
      {
        var entry := candidates[index];
        FilterStep(hs0, headers, candidates[..index], entry);
        assert candidates[..index + 1] == candidates[..index] + [entry];
        index := index + 1;
        if !headers[entry.header].live || headers[entry.header].generation != entry.generation {
          continue;
        }
        headers := headers[entry.header := headers[entry.header].(buffered := false)];
        if headers[entry.header].color == Purple && headers[entry.header].owners > 0 {
          roots := roots + [entry.header];
        }
      }
      assert candidates[..|candidates|] == candidates;
      candidates := [];
    }

    /** Phase 2: the candidate subgraph, gray, with trial counts seeded from the owner counts. */
    method Gather(roots: seq<nat>) returns (subgraph: seq<nat>)
      requires Links(headers) && Elems(roots) <= LiveSet(headers)
      requires forall b :: 0 <= b < |headers| ==> headers[b].color != Gray
      modifies this`headers
      ensures Distinct(subgraph)
      ensures Elems(subgraph) == ReachSet(GraphOf(old(headers)), Elems(roots))
      ensures Subgraph(old(headers), Elems(subgraph))
      ensures |headers| == |old(headers)|
      ensures forall b :: 0 <= b < |headers| ==>
                headers[b] == if b in Elems(subgraph)
                             then old(headers)[b].(color := Gray, trial := old(headers)[b].owners)
                              else old(headers)[b]
    {
      hide Links, Reach, Children, Gathering;
      ghost var hs0 := headers;
      GatherStart(hs0, roots);
      var stack := roots;
      subgraph := [];
      assert Elems(subgraph) == {};
      while |stack| > 0
        invariant Distinct(subgraph)
        invariant Gathering(hs0, headers, Elems(roots), Elems(subgraph), stack)
        decreases LiveSet(hs0) - Elems(subgraph), |stack|
      {
        ghost var all, seen := stack, Elems(subgraph);
        var current := stack[|stack| - 1];
        stack := stack[..|stack| - 1];
        assert all == stack + [current];
        GatheringColor(hs0, headers, Elems(roots), seen, stack, current);
        if headers[current].color == Gray {
          GatherSkip(hs0, headers, Elems(roots), seen, stack, current);
        } else {
          GatherNode(hs0, headers, Elems(roots), seen, stack, current);
          headers := headers[current := headers[current].(color := Gray, trial := headers[current].owners)];
          GatheringLinks(hs0, headers, Elems(roots), seen + {current}, stack + Children(hs0, current));
          subgraph := subgraph + [current];
          assert Elems(subgraph) == seen + {current};
          var kids := ChildrenOf(current);
          assert kids == GraphOf(headers)[current];
          stack := stack + kids;
        }
      }
      GatherEnd(hs0, headers, Elems(roots), Elems(subgraph));
      GatheringColors(hs0, headers, Elems(roots), Elems(subgraph));
    }

    /** The inner loop of phase 3. */
    method SubtractEdges(kids: seq<nat>)
      requires forall w :: w in kids ==> w < |headers|
      modifies this`headers
      ensures |headers| == |old(headers)|
      ensures forall b :: 0 <= b < |headers| ==>
                headers[b] == old(headers)[b].(trial := old(headers)[b].trial - multiset(kids)[b])
    {
      var child := 0;
      while child < |kids|
        invariant 0 <= child <= |kids| && |headers| == |old(headers)|
        invariant forall b :: 0 <= b < |headers| ==>
                    headers[b] == old(headers)[b].(trial := old(headers)[b].trial - multiset(kids[..child])[b])
      {
        var w := kids[child];
        assert w in kids;
        PrefixCount(kids, child);
        headers := headers[w := headers[w].(trial := headers[w].trial - 1)];
        child := child + 1;
      }
      assert kids[..|kids|] == kids;
    }

    /** Phase 3: the edges internal to the subgraph are subtracted. */
    method SubtractInternal(subgraph: seq<nat>)
      requires Links(headers) && Distinct(subgraph) && Elems(subgraph) <= LiveSet(headers)
      modifies this`headers
      ensures |headers| == |old(headers)|
      ensures forall b :: 0 <= b < |headers| ==>
                headers[b] == old(headers)[b].(trial := old(headers)[b].trial
                                - EdgesFrom(GraphOf(old(headers)), Elems(subgraph))[b])
    {
      hide Links, Children, EdgesFrom, GraphOf, LiveSet;
      ghost var hs0 := headers;
      ghost var g := GraphOf(hs0);
      LinksGraph(hs0);
      EdgesNone(g);
      assert Elems(subgraph[..0]) == {};
      var index := 0;
      while index < |subgraph|
        invariant 0 <= index <= |subgraph| && |headers| == |hs0|
        invariant forall b :: 0 <= b < |headers| ==>
                    headers[b] == hs0[b].(trial := hs0[b].trial - EdgesFrom(g, Elems(subgraph[..index]))[b])
      {
        var current := subgraph[index];
        LiveMember(hs0, current);
        assert subgraph[..index + 1] == subgraph[..index] + [current];
        assert Elems(subgraph[..index + 1]) == Elems(subgraph[..index]) + {current};
        EdgesAdd(g, Elems(subgraph[..index]), current);
        SameLinksGraph(hs0, headers);
        var kids := ChildrenOf(current);
        assert kids == GraphOf(headers)[current];
        SubtractEdges(kids);
        index := index + 1;
      }
      assert subgraph[..|subgraph|] == subgraph;
    }

    /** The inner loop of the restoration: children gain a trial owner and turn black. */
    method RestoreChildren(kids: seq<nat>, restore: seq<nat>) returns (out: seq<nat>)
      requires forall w :: w in kids ==> w < |headers|
      requires Distinct(restore)
      requires forall w :: w in restore ==> w < |headers| && headers[w].color == Black
      modifies this`headers
      ensures Restored(old(headers), headers, kids)
      ensures Distinct(out)
      ensures forall w :: w in out <==>
                w in restore || (w in kids && w < |old(headers)| && old(headers)[w].color != Black)
    {
      hide Restored;
      RestoredNone(headers);
      out := restore;
      var child := 0;
      while child < |kids|
        invariant 0 <= child <= |kids|
        invariant |headers| == |old(headers)| && Restored(old(headers), headers, kids[..child])
        invariant Distinct(out)
        invariant forall w :: w in out <==>
                    w in restore || (w in kids[..child] && w < |old(headers)| && old(headers)[w].color != Black)
      {
        var target := kids[child];
        assert target < |headers| by {
          assert target in kids;
        }
        assert kids[..child + 1] == kids[..child] + [target];
        RestoredColor(old(headers), headers, kids[..child], target);
        RestoredOne(old(headers), headers, kids[..child], target);
        ghost var after := headers[target := headers[target].(trial := headers[target].trial + 1, color := Black)];
        headers := headers[target := headers[target].(trial := headers[target].trial + 1)];
        if headers[target].color != Black {
          headers := headers[target := headers[target].(color := Black)];
          out := out + [target];
        }
        assert headers == after;
        child := child + 1;
      }
      assert kids[..|kids|] == kids;
    }

    /** Phase 4, an externally held node: everything it reaches goes back to black. */
    method RestoreFrom(current: nat, ghost hs0: Headers, ghost s: set<nat>)
      requires Links(hs0) && Subgraph(hs0, s)
      requires Scanning(hs0, headers, s, Colored(headers, s, Black))
      requires current in s && current < |headers| && headers[current].color == Gray
      requires Outer(hs0, s, current) > 0
      modifies this`headers
      ensures Scanning(hs0, headers, s, Colored(headers, s, Black))
      ensures OnlyBlackened(old(headers), headers) && headers[current].color == Black
    {
      hide Scanning, Links, Children, Outer, RestoreList, Subgraph, Colored;
      ghost var done: set<nat> := Colored(headers, s, Black);
      ColoredMember(headers, s, Black);
      ScanBlacken(hs0, headers, s, current);
      headers := headers[current := headers[current].(color := Black)];
      var restore: seq<nat> := [current];
      RestoreListStart(headers, s, done, current);
      while |restore| > 0
        invariant Scanning(hs0, headers, s, done) && RestoreList(headers, s, done, restore)
        invariant OnlyBlackened(old(headers), headers) && headers[current].color == Black
        decreases s - done
      {
        ghost var all := restore;
        var node := restore[|restore| - 1];
        restore := restore[..|restore| - 1];
        assert all == restore + [node];
        RestoreListPop(headers, s, done, restore, node);
        restore := RestoreNode(node, restore, hs0, s, done);
        done := done + {node};
      }
      RestoreListEnd(headers, s, done);
    }

    /** One node of the restoration. */
    method RestoreNode(node: nat, restore: seq<nat>, ghost hs0: Headers, ghost s: set<nat>, ghost done: set<nat>)
      returns (out: seq<nat>)
      requires Links(hs0) && Subgraph(hs0, s) && Scanning(hs0, headers, s, done)
      requires RestoreList(headers, s, done, restore + [node])
      modifies this`headers
      ensures Scanning(hs0, headers, s, done + {node}) && RestoreList(headers, s, done + {node}, out)
      ensures OnlyBlackened(old(headers), headers)
    {
      hide Scanning, Links, Children, Outer, RestoreList;
      ghost var hs := headers;
      RestoreListPop(headers, s, done, restore, node);
      ScanningLinks(hs0, headers, s, done);
      LinksGraph(hs0);
      var kids := ChildrenOf(node);
      assert kids == GraphOf(headers)[node];
      out := RestoreChildren(kids, restore);
      ScanRestore(hs0, hs, headers, s, done, node);
      RestoreListStep(hs, headers, s, done, restore, node, kids, out);
    }

    /** Phase 4: from every root, nodes held from outside and what they reach become black, the
        others white. */
    method Scan(roots: seq<nat>, ghost hs0: Headers, ghost s: set<nat>)
      requires Links(hs0) && Counts(hs0, held) && Subgraph(hs0, s)
      requires Elems(roots) <= s
      requires Scanning(hs0, headers, s, Colored(headers, s, Black)) && Pending(hs0, headers, s, [])
      modifies this`headers
      ensures Scanning(hs0, headers, s, Colored(headers, s, Black)) && Pending(hs0, headers, s, [])
      ensures forall r :: r in roots ==> r < |headers| && headers[r].color != Gray
    {
      hide Scanning, Pending, Links, Children, Counts, Outer, Subgraph, Colored, SameLinks, GraphOf;
      ScanningLinks(hs0, headers, s, Colored(headers, s, Black));
      var index := 0;
      while index < |roots|
        invariant 0 <= index <= |roots| && s <= Below(|headers|)
        invariant Scanning(hs0, headers, s, Colored(headers, s, Black)) && Pending(hs0, headers, s, [])
        invariant forall r :: r in roots[..index] ==> r < |headers| && headers[r].color != Gray
      {
        assert roots[..index + 1] == roots[..index] + [roots[index]];
        assert roots[index] in Elems(roots);
        ScanRoot(roots[index], hs0, s);
        forall r | r in roots[..index + 1] ensures r < |headers| && headers[r].color != Gray {
          assert r in Elems(roots);
        }
        index := index + 1;
      }
      assert roots[..|roots|] == roots;
    }

    /** The scan from one root. */
    method ScanRoot(root: nat, ghost hs0: Headers, ghost s: set<nat>)
      requires Links(hs0) && Counts(hs0, held) && Subgraph(hs0, s) && root in s
      requires Scanning(hs0, headers, s, Colored(headers, s, Black)) && Pending(hs0, headers, s, [])
      requires s <= Below(|headers|)
      modifies this`headers
      ensures Scanning(hs0, headers, s, Colored(headers, s, Black)) && Pending(hs0, headers, s, [])
      ensures SettledMore(old(headers), headers, s) && headers[root].color != Gray
    {
      hide Scanning, Pending, Links, Children, Counts, Outer;
      var stack := [root];
      PendingMore(hs0, headers, s, [], [root]);
      assert [] + [root] == [root];
      while |stack| > 0
        invariant Elems(stack) <= s && SettledMore(old(headers), headers, s)
        invariant Scanning(hs0, headers, s, Colored(headers, s, Black)) && Pending(hs0, headers, s, stack)
        invariant headers[root].color != Gray || root in stack
        decreases Colored(headers, s, Gray), |stack|
      {
        ghost var all, hs := stack, headers;
        var current := stack[|stack| - 1];
        stack := stack[..|stack| - 1];
        assert all == stack + [current] && current in Elems(all);
        assert Elems(stack) <= Elems(all);
        if headers[current].color != Gray {
          PendingBlackened(hs0, hs, hs, s, stack, current);
        } else {
          assert current in Colored(hs, s, Gray);
          var kids := ScanNode(current, hs0, s, stack);
          assert current !in Colored(headers, s, Gray);
          stack := stack + kids;
        }
      }
    }

    /** One gray node of the scan: black with all it reaches, or white. */
    method ScanNode(current: nat, ghost hs0: Headers, ghost s: set<nat>, ghost stack: seq<nat>)
      returns (kids: seq<nat>)
      requires Links(hs0) && Counts(hs0, held) && Subgraph(hs0, s) && current in s && s <= Below(|headers|)
      requires Scanning(hs0, headers, s, Colored(headers, s, Black)) && Pending(hs0, headers, s, stack + [current])
      requires headers[current].color == Gray
      modifies this`headers
      ensures Scanning(hs0, headers, s, Colored(headers, s, Black)) && Pending(hs0, headers, s, stack + kids)
      ensures SettledMore(old(headers), headers, s) && headers[current].color != Gray && Elems(kids) <= s
    {
      hide Scanning, Pending, Links, Children, Counts, Outer;
      ghost var hs := headers;
      GrayPositive(hs0, held, headers, s, Colored(headers, s, Black), current);
      if headers[current].trial > 0 {
        RestoreFrom(current, hs0, s);
        PendingBlackened(hs0, hs, headers, s, stack, current);
        kids := [];
        assert stack + kids == stack;
      } else {
        ScanWhiten(hs0, headers, s, stack, current);
        headers := headers[current := headers[current].(color := White)];
        ScanningLinks(hs0, headers, s, Colored(headers, s, Black));
        kids := ChildrenOf(current);
        assert kids == GraphOf(headers)[current];
      }
    }

    /** Phase 5, first loop: the owning edges that leave the white group. */
    method ExternalEdges(subgraph: seq<nat>) returns (externals: seq<nat>)
      requires Links(headers) && Distinct(subgraph) && Elems(subgraph) <= LiveSet(headers)
      ensures LeavesGroup(headers, multiset(externals), Colored(headers, Elems(subgraph), White))
    {
      hide Links, Children, LeavesGroup, Colored, NotWhiteOf;
      externals := [];
      LeavesGroupStart(headers);
      ColoredNone(headers, subgraph, White);
      assert Elems(subgraph[..0]) == {};
      LinksGraph(headers);
      var index := 0;
      while index < |subgraph|
        invariant 0 <= index <= |subgraph|
        invariant LeavesGroup(headers, multiset(externals), Colored(headers, Elems(subgraph[..index]), White))
      {
        var current := subgraph[index];
        LiveMember(headers, current);
        assert current in Elems(subgraph);
        ColoredNext(headers, subgraph, index, White);
        ghost var before := Colored(headers, Elems(subgraph[..index]), White);
        index := index + 1;
        if headers[current].color == White {
          var kids := ChildrenOf(current);
          assert kids == GraphOf(headers)[current];
          var outside := NotWhite(kids);
          ColoredInside(headers, Elems(subgraph[..index - 1]), White);
          LeavesGroupStep(headers, multiset(externals), multiset(outside), before, current);
          externals := externals + outside;
        }
      }
      assert subgraph[..|subgraph|] == subgraph;
    }

    /** Its inner loop: the targets that are not white. */
    method NotWhite(kids: seq<nat>) returns (out: seq<nat>)
      requires forall w :: w in kids ==> w < |headers|
      ensures NotWhiteOf(headers, multiset(out), multiset(kids))
    {
      out := [];
      var child := 0;
      while child < |kids|
        invariant 0 <= child <= |kids|
        invariant NotWhiteOf(headers, multiset(out), multiset(kids[..child]))
      {
        assert kids[..child + 1] == kids[..child] + [kids[child]] && kids[child] in kids;
        if headers[kids[child]].color != White {
          out := out + [kids[child]];
        }
        child := child + 1;
      }
      assert kids[..|kids|] == kids;
    }

    /** Phase 5, the releases: none of them frees anything. */
    method ReleaseExternals(externals: seq<nat>)
      requires Storage(Now())
      requires forall n :: n in multiset(externals) ==>
                 n < |headers| && headers[n].live && headers[n].owners > multiset(externals)[n]
                 && headers[n].color != White
      modifies this`headers, this`freeHeads, this`freeLists, this`stats, this`candidates
      ensures Storage(Now())
      ensures Now() == old(Now()).(hs := headers, candidates := candidates)
      ensures GroupReleased(old(headers), headers, multiset(externals))
      ensures Buffered(old(headers), old(candidates)) ==> Buffered(headers, candidates)
      ensures Noticed(old(headers), old(candidates), headers, candidates)
    {
      hide Storage, Noticed;
      ghost var s0 := Now();
      NoticedStart(headers, candidates);
      var index := 0;
      while index < |externals|
        invariant 0 <= index <= |externals| && Storage(Now())
        invariant Now() == s0.(hs := headers, candidates := candidates)
        invariant GroupReleased(s0.hs, headers, multiset(externals[..index]))
        invariant Buffered(s0.hs, s0.candidates) ==> Buffered(headers, candidates)
        invariant Noticed(s0.hs, s0.candidates, headers, candidates)
      {
        ghost var s, n := Now(), externals[index];
        PrefixCount(externals, index);
        assert n in multiset(externals);
        NoticedDecrement(s0.hs, s0.candidates, s, n);
        ReleaseHeader(externals[index]);
        DecrementReleases(s0.hs, s, multiset(externals[..index]), n);
        index := index + 1;
      }
      assert externals[..|externals|] == externals;
    }

    /** One member of the subgraph: freed if white, repainted if still gray. */
    method FreeMember(current: nat, ghost hs0: Headers, ghost dead: set<nat>) returns (white: bool)
      requires Storage(Now()) && GroupFreed(hs0, headers, dead)
      requires current < |hs0| && hs0[current].live && current !in dead
      modifies this`headers, this`freeHeads, this`freeLists, this`stats
      ensures Storage(Now()) && white == (hs0[current].color == White)
      ensures GroupFreed(hs0, headers, if white then dead + {current} else dead)
      ensures stats == old(stats).(liveObjects := stats.liveObjects, totalFrees := stats.totalFrees)
    {
      hide Storage, LiveSet;
      ghost var s := Now();
      white := headers[current].color == White;
      if white {
        FreeBlock(current);
        FreedGrows(hs0, s, dead, current);
      } else if headers[current].color == Gray {
        headers := headers[current := headers[current].(color := Black)];
        StorageSame(s, Now());
      }
    }

    /** Phase 5, the last loop: the white group is freed wholesale. */
    method FreeGroup(subgraph: seq<nat>) returns (reclaimed: nat)
      requires Storage(Now()) && Distinct(subgraph) && Elems(subgraph) <= LiveSet(headers)
      modifies this`headers, this`freeHeads, this`freeLists, this`stats
      ensures Storage(Now())
      ensures GroupFreed(old(headers), headers, Colored(old(headers), Elems(subgraph), White))
      ensures reclaimed == |Colored(old(headers), Elems(subgraph), White)|
      ensures stats == old(stats).(liveObjects := stats.liveObjects, totalFrees := stats.totalFrees)
    {
      hide Storage, LiveSet, Colored, Distinct;
      ColoredNone(headers, subgraph, White);
      ghost var hs0 := headers;
      ghost var dead: set<nat> := {};
      reclaimed := 0;
      var index := 0;
      while index < |subgraph|
        invariant 0 <= index <= |subgraph| && Storage(Now())
        invariant dead == Colored(hs0, Elems(subgraph[..index]), White) && reclaimed == |dead|
        invariant GroupFreed(hs0, headers, dead)
        invariant stats == old(stats).(liveObjects := stats.liveObjects, totalFrees := stats.totalFrees)
      {
        var current := subgraph[index];
        LiveMember(hs0, current);
        ColoredNext(hs0, subgraph, index, White);
        var white := FreeMember(current, hs0, dead);
        if white {
          reclaimed := reclaimed + 1;
          dead := dead + {current};
        }
        index := index + 1;
      }
      assert subgraph[..|subgraph|] == subgraph;
    }

    /** Phases 2 to 4 together: white is exactly the garbage. */
    method MarkGarbage(roots: seq<nat>) returns (subgraph: seq<nat>)
      requires Links(headers) && Counts(headers, held) && Settled(headers)
      requires Elems(roots) <= LiveSet(headers)
      modifies this`headers
      ensures Distinct(subgraph)
      ensures Elems(subgraph) == ReachSet(GraphOf(old(headers)), Elems(roots))
      ensures Subgraph(old(headers), Elems(subgraph))
      ensures Sorted(old(headers), headers, Garbage(old(headers), held, Elems(subgraph)))
      ensures Repainted(old(headers), headers, Elems(subgraph))
    {
      hide Links, Children, Counts, Reach, EdgesFrom, Outer, Scanning, Pending, Garbage, Sorted, LiveSet;
      ghost var hs0 := headers;
      subgraph := Gather(roots);
      ghost var hs := headers;
      ghost var s := Elems(subgraph);
      SameLinksGraph(hs0, hs);
      SubtractInternal(subgraph);
      Subtracted(hs0, hs, headers, s);
      ScanStart(hs0, headers, s);
      RootsInside(hs0, Elems(roots));
      Scan(roots, hs0, s);
      MarkEnds(hs0, headers, held, s, Elems(roots));
    }

    /** Phase 5 together: the edges leaving the garbage are released, the garbage is freed. */
    method ReclaimGarbage(subgraph: seq<nat>, ghost hs0: Headers) returns (reclaimed: nat)
      requires Storage(Now()) && Links(hs0) && Counts(hs0, held) && Distinct(subgraph)
      requires Subgraph(hs0, Elems(subgraph))
      requires Sorted(hs0, headers, Garbage(hs0, held, Elems(subgraph)))
      modifies this`headers, this`freeHeads, this`freeLists, this`stats, this`candidates
      ensures Storage(Now())
      ensures Collected(hs0, headers, held, Elems(subgraph))
      ensures reclaimed == |Garbage(hs0, held, Elems(subgraph))|
      ensures Buffered(old(headers), old(candidates)) ==> Buffered(headers, candidates)
      ensures Noticed(old(headers), old(candidates), headers, candidates)
      ensures forall c :: c in candidates[|old(candidates)|..] ==> Current(headers, c)
      ensures stats == old(stats).(liveObjects := stats.liveObjects, totalFrees := stats.totalFrees)
    {
      hide Storage, Links, Children, Counts, Reach, EdgesFrom, Garbage, LeavesGroup, Collected, Noticed;
      ghost var hs4, cs4, s := headers, candidates, Elems(subgraph);
      SameLinksGraph(hs0, hs4);
      GarbageInside(hs0, held, s);
      WhiteIsGarbage(hs0, hs4, held, s);
      var externals := ExternalEdges(subgraph);
      ReleasesFit(hs0, hs4, held, s, multiset(externals));
      ReleaseExternals(externals);
      ghost var hs5 := headers;
      ReleasedColors(hs0, hs4, hs5, held, s, multiset(externals));
      reclaimed := FreeGroup(subgraph);
      CollectedBy(hs0, hs4, hs5, headers, held, s, multiset(externals));
      FreedBuffered(hs5, headers, Garbage(hs0, held, s), candidates);
      NothingReleased(hs0, hs4, hs5, Garbage(hs0, held, s), multiset(externals));
      NoticedGroup(hs4, cs4, hs5, candidates, headers, Garbage(hs0, held, s));
    }

    /** `gr_collect_cycles`: frees exactly the candidate objects no holder reaches and counts them. */
    method CollectCycles() returns (reclaimed: nat)
      requires Valid()
      modifies this
      ensures Valid() && CollectEffect(old(Now()), reclaimed, Now())
      ensures old(Tracked(Now())) ==> Tracked(Now())
    {
      hide Storage, Links, Counts, Settled, Collected, CollectEffect, Tracked, Buffered, Filtered,
        SameLinks, ReachSet, Roots, Sorted, Repainted, Garbage, CurrentBlocks, Subgraph, LiveSet, Noticed, Remarked;
      ghost var s := Now();
      CollectionMeans(s);
      StatsKeep(Now(), stats.(cycleCollections := stats.cycleCollections + 1));
      stats := stats.(cycleCollections := stats.cycleCollections + 1);
      var roots := FilterCandidates();
      ghost var hs0 := headers;
      FilterKeeps(s, Now());
      var subgraph := MarkGarbage(roots);
      RootsInside(hs0, Elems(roots));
      SubgraphLive(hs0, Elems(subgraph));
      MarkKeeps(s, hs0, Now(), Elems(subgraph));
      ghost var hs4 := headers;
      assert Elems(subgraph) == CandidateSubgraph(s);
      reclaimed := ReclaimGarbage(subgraph, hs0);
      StatsKeep(Now(), stats.(cycleObjectsFreed := stats.cycleObjectsFreed + reclaimed));
      stats := stats.(cycleObjectsFreed := stats.cycleObjectsFreed + reclaimed);
      CollectionEnds(s, hs0, Now(), Elems(subgraph));
      CollectionMarks(s, hs0, hs4, Now(), Elems(subgraph));
      CollectionEffect(s, hs0, Now(), Elems(subgraph), reclaimed);
    }

    // ---------------------------------------------------------------- references

    /** `gr_try`: the target of a live reference; only a stale one counts as a failed check. */
    method Try(r: Ref) returns (target: Option<nat>)
      modifies this`stats
      ensures target == if Alive(headers, r) then Some(r.target) else None
      ensures stats == old(stats).(failedChecks := old(stats).failedChecks +
                (if r.Handle? && !Alive(headers, r) then 1 else 0))
    {
      if !Alive(headers, r) {
        if r != Null {
          stats := stats.(failedChecks := stats.failedChecks + 1);
        }
        return None;
      }
      return Some(r.target);
    }

    // ---------------------------------------------------------------- owning fields

    /** Moving a held handle into an empty owning field of `src`. */
    method MoveInto(src: nat, i: nat, r: Ref)
      requires Valid() && Slot(headers, src, i) && headers[src].fields[i] == Null
      requires Alive(headers, r) && r.target in held && headers[src].kind.value.traced
      modifies this`headers, this`held
      ensures Valid() && MoveEffect(old(Now()), src, i, r, Now())
    {
      ghost var s := Now();
      headers := headers[src := headers[src].(fields := headers[src].fields[i := r])];
      held := held - multiset{r.target};
      MoveKeeps(s, src, i, r, Now());
    }

    /** Taking the handle out of an owning field of `src`. */
    method TakeFrom(src: nat, i: nat) returns (r: Ref)
      requires Valid() && Slot(headers, src, i)
      modifies this`headers, this`held
      ensures Valid() && r == old(headers)[src].fields[i]
      ensures r == Null ==> Now() == old(Now())
      ensures r.Handle? ==> TakeEffect(old(Now()), src, i, r, Now())
    {
      r := headers[src].fields[i];
      if r == Null {
        return;
      }
      ghost var s := Now();
      headers := headers[src := headers[src].(fields := headers[src].fields[i := Null])];
      held := held + multiset{r.target};
      TakeKeeps(s, src, i, r, Now());
    }

    /** `add_edge` of graph_demo.c: a clone of `target` goes into the next field of `source`. */
    method AddEdge(source: Ref, edgeCount: nat, target: Ref) returns (res: Result<bool, Abort>)
      requires Valid() && target.Handle?
      requires Alive(headers, source) ==>
                 && headers[source.target].kind.value.traced
                 && (edgeCount < |headers[source.target].fields| ==>
                       headers[source.target].fields[edgeCount] == Null)
      modifies this`headers, this`stats, this`held
      ensures Valid()
      ensures !Alive(old(headers), source) ==>
                res == Failure(Stale) && Now() == if source == Null then old(Now()) else Failed(old(Now()))
      ensures res == Failure(Released) ==> Now() == Failed(old(Now()))
      ensures Alive(old(headers), source) && edgeCount >= |old(headers)[source.target].fields| ==>
                res == Success(false) && Now() == old(Now())
      ensures Alive(old(headers), source) && edgeCount < |old(headers)[source.target].fields| ==>
                res == if Alive(old(headers), target) then Success(true) else Failure(Released)
      ensures res == Success(true) ==>
                exists mid: Snapshot :: CloneEffect(old(Now()), target, mid)
                                        && MoveEffect(mid, source.target, edgeCount, target, Now())
    {
      hide Consistent;
      FailedKeeps(Now());
      if !Alive(headers, source) {
        if source != Null {
          stats := stats.(failedChecks := stats.failedChecks + 1);
        }
        return Failure(Stale);
      }
      if edgeCount >= |headers[source.target].fields| {
        return Success(false);
      }
      var copy := Clone(target);
      if copy.Failure? {
        return Failure(copy.error);
      }
      ghost var mid := Now();
      MoveInto(source.target, edgeCount, copy.value);
      return Success(true);
    }
  }
}
