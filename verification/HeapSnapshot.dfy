/** Whole states of the generational heap and the invariants of a run.
 */
module HeapSnapshot {
  import opened Graph
  import opened HeapPool
  import opened HeapState
  import opened Wrappers

  datatype Stats = Stats(
    liveObjects: nat, totalAllocations: nat, totalFrees: nat, failedChecks: nat,
    cycleCollections: nat, cycleObjectsFreed: nat, bytesReserved: nat, blocksReused: nat)

  /** The globals of genref.c, with three things only the proof knows: the contents of the free
      lists, the log of allocations, and the units of ownership the program's handles hold. */
  datatype Snapshot = Snapshot(
    hs: Headers, heads: Heads, candidates: seq<Candidate>, stats: Stats,
    lists: seq<seq<nat>>, log: set<(nat, nat)>, held: multiset<nat>)

  ghost predicate Tallied(s: Snapshot) {
    && s.stats.liveObjects == |LiveSet(s.hs)|
    && s.stats.totalAllocations == s.stats.liveObjects + s.stats.totalFrees == |s.log|
  }

  ghost predicate Storage(s: Snapshot) {
    && Pool(s.hs, s.heads, s.lists, s.log)
    && Tallied(s)
    && forall c :: c in s.candidates ==> c.header < |s.hs|
  }

  /** What every operation keeps, whatever the candidate buffer holds: a partitioned pool, exact
      owner counts, and no trial colours. */
  ghost predicate Consistent(s: Snapshot) {
    && Storage(s)
    && Links(s.hs) && Counts(s.hs, s.held) && Settled(s.hs)
  }

  /** Every unreachable object can be reached from a candidate a collection starts from. */
  ghost predicate Covered(s: Snapshot) {
    CoveredFrom(s.hs, s.held, Roots(s.hs, s.candidates))
  }

  /** What disciplined programs with honest type flags keep on top of `Consistent`. */
  ghost predicate Tracked(s: Snapshot) {
    HonestFlags(s.hs) && Buffered(s.hs, s.candidates) && Covered(s)
  }

  /** The empty heap a program starts with. */
  ghost function Initial(): Snapshot {
    Snapshot([], seq(MAX_CLASS + 1, _ => None), [], Stats(0, 0, 0, 0, 0, 0, 0, 0),
             seq(MAX_CLASS + 1, _ => []), {}, multiset{})
  }

  lemma InitialConsistent()
    ensures Consistent(Initial()) && Tracked(Initial())
  {
    hide Reach, EdgesFrom;
    var s := Initial();
    assert LiveSet(s.hs) == {};
  }

  /** No object changed but in marks, count and death; nothing was born. */
  ghost predicate Shrunk(hs: Headers, hs2: Headers) {
    && |hs| == |hs2|
    && forall b :: 0 <= b < |hs| ==> Aged(hs[b], hs2[b])
  }

  ghost predicate Aged(h: Header, h2: Header) {
    if h2.live then
      h.live && h2.generation == h.generation && h2.kind == h.kind && h2.fields == h.fields
    else
      h2.generation == if h.live then h.generation + 1 else h.generation
  }

  /** Every self-supporting set of the objects in `before` is still in `after`. */
  ghost predicate Outlives(g: Graph, held: set<nat>, before: set<nat>, after: set<nat>) {
    forall s: set<nat> {:trigger Supported(g, held, s)} ::
      Supported(g, held, s) && s <= before ==> s <= after
  }
}
