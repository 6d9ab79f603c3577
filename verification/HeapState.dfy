/** The state of the generational heap (experiments/genref/genref.c) as values: block headers, the
    owning-edge graph they induce, and the invariants every operation keeps.

    A block is named by its index; the address of a C header or payload is never looked at.
 */
module HeapState {
  import opened Graph
  import opened Wrappers

  /** `GR_HEADER_BYTES` on a 64-bit target: 40 bytes of fields rounded up to 16. */
  const HEADER_BYTES: nat := 48
  const MIN_CLASS: nat := 6
  const MAX_CLASS: nat := 63
  const CHUNK_CLASS: nat := 16  // GR_CHUNK_BYTES is 2^16

  /** `gr_type`: payload size, number of owning fields, and the collector-relevant flags.
      `traced` says that the type has a `trace` function, which lists all its owning fields. */
  datatype GrType = GrType(size: nat, slots: nat, traced: bool, acyclic: bool)

  /** `gr_owned` and `gr_ref`: null, or a block with the generation it had. */
  datatype Ref = Null | Handle(target: nat, generation: nat)

  datatype Color = Black | Gray | White | Purple

  /** `gr_header` together with the owning fields of its payload. */
  datatype Header = Header(
    generation: nat, kind: Option<GrType>, owners: nat, color: Color, live: bool,
    buffered: bool, classIndex: nat, trial: int, nextFree: Option<nat>, fields: seq<Ref>)

  datatype Candidate = Candidate(header: nat, generation: nat)

  type Headers = seq<Header>

  // ------------------------------------------------------------------ references and edges

  /** The generation check of `gr_alive`. */
  predicate Alive(hs: Headers, r: Ref) {
    r.Handle? && r.target < |hs| && hs[r.target].live && hs[r.target].generation == r.generation
  }

  /** What a tracer reports: the targets of the owning fields, null and stale ones ignored. */
  function Trace(hs: Headers, fields: seq<Ref>): seq<nat> {
    if fields == [] then []
    else
      var last := fields[|fields| - 1];
      Trace(hs, fields[..|fields| - 1]) + (if Alive(hs, last) then [last.target] else [])
  }

  /** `children_of`: nothing for a block without a type or without a tracer. */
  function Children(hs: Headers, b: nat): seq<nat>
    requires b < |hs|
  {
    if hs[b].kind.None? || !hs[b].kind.value.traced then [] else Trace(hs, hs[b].fields)
  }

  /** The owning-edge graph. */
  ghost function GraphOf(hs: Headers): (g: Graph)
    ensures |g| == |hs|
    ensures forall b :: 0 <= b < |hs| ==> g[b] == Children(hs, b)
  {
    seq(|hs|, b requires 0 <= b < |hs| => Children(hs, b))
  }

  ghost function LiveSet(hs: Headers): set<nat> {
    set b | b in Below(|hs|) && hs[b].live
  }

  ghost function HeldSet(held: multiset<nat>): set<nat> {
    set b | b in held
  }

  lemma {:induction false} TraceMember(hs: Headers, fields: seq<Ref>, w: nat)
    ensures w in Trace(hs, fields) <==> exists r :: r in fields && Alive(hs, r) && r.target == w
  {
    if fields != [] {
      TraceMember(hs, fields[..|fields| - 1], w);
      assert fields == fields[..|fields| - 1] + [fields[|fields| - 1]];
    }
  }

  lemma {:induction false} TraceFrame(hs: Headers, hs2: Headers, fields: seq<Ref>)
    requires forall r :: r in fields ==> (Alive(hs, r) <==> Alive(hs2, r))
    ensures Trace(hs, fields) == Trace(hs2, fields)
  {
    if fields != [] {
      TraceFrame(hs, hs2, fields[..|fields| - 1]);
    }
  }

  lemma {:induction false} TraceNothing(hs: Headers, fields: seq<Ref>)
    requires forall r :: r in fields ==> r == Null
    ensures Trace(hs, fields) == []
  {
    if fields != [] {
      assert fields[|fields| - 1] in fields;
      var rest := fields[..|fields| - 1];
      forall r | r in rest ensures r == Null {
        assert r in fields;
      }
      TraceNothing(hs, fields[..|fields| - 1]);
    }
  }

  /** The edge an owning field makes. */
  function Edge(hs: Headers, r: Ref): multiset<nat> {
    if Alive(hs, r) then multiset{r.target} else multiset{}
  }

  lemma TraceLast(hs: Headers, fields: seq<Ref>)
    requires fields != []
    ensures multiset(Trace(hs, fields)) ==
            multiset(Trace(hs, fields[..|fields| - 1])) + Edge(hs, fields[|fields| - 1])
  {
    hide Alive;
  }

  /** Filling an empty owning field adds exactly one edge. */
  lemma {:induction false} TraceStore(hs: Headers, fields: seq<Ref>, i: nat, r: Ref)
    requires i < |fields| && fields[i] == Null && Alive(hs, r)
    ensures multiset(Trace(hs, fields[i := r])) == multiset(Trace(hs, fields)) + multiset{r.target}
  {
    hide Trace;
    var n := |fields| - 1;
    var filled := fields[i := r];
    TraceLast(hs, fields);
    TraceLast(hs, filled);
    if i < n {
      TraceStore(hs, fields[..n], i, r);
      assert filled[..n] == fields[..n][i := r];
    } else {
      assert filled[..n] == fields[..n];
    }
  }

  // ------------------------------------------------------------------ invariants

  /** Live blocks have a type; every owning field of a live object is null or names a live
      object by its current generation, and is seen by the type's tracer. */
  ghost predicate Links(hs: Headers) {
    forall b :: 0 <= b < |hs| ==>
      && (hs[b].live <==> hs[b].kind.Some?)
      && (hs[b].live ==> FieldsOk(hs, hs[b].fields, hs[b].kind.value))
  }

  ghost predicate FieldsOk(hs: Headers, fields: seq<Ref>, kind: GrType) {
    && |fields| == kind.slots
    && forall r :: r in fields && r != Null ==> Alive(hs, r) && kind.traced
  }

  /** Owner counts: each live object has at least one owner, and its count is the number of owning
      edges to it plus the units in `outside`, which are all for live objects. */
  ghost predicate Counts(hs: Headers, outside: multiset<nat>) {
    && (forall b :: 0 <= b < |hs| && hs[b].live ==>
          hs[b].owners == outside[b] + Edges(GraphOf(hs))[b] && hs[b].owners > 0)
    && (forall b :: b in outside ==> b < |hs| && hs[b].live)
  }

  /** Between operations no block is gray or white. */
  ghost predicate Settled(hs: Headers) {
    forall b :: 0 <= b < |hs| ==> hs[b].color == Black || hs[b].color == Purple
  }

  /** An entry of the candidate buffer that names the block as it is now. */
  ghost predicate Current(hs: Headers, c: Candidate) {
    c.header < |hs| && hs[c.header].live && hs[c.header].generation == c.generation
  }

  /** The blocks a collection starts from. */
  ghost function Roots(hs: Headers, candidates: seq<Candidate>): set<nat> {
    set c | c in candidates && Current(hs, c) && hs[c.header].color == Purple :: c.header
  }

  /** Purple blocks carry the buffered flag, and flagged blocks are in the buffer. */
  ghost predicate Buffered(hs: Headers, candidates: seq<Candidate>) {
    forall b :: 0 <= b < |hs| && hs[b].live ==>
      && (hs[b].color == Purple ==> hs[b].buffered)
      && (hs[b].buffered ==> Candidate(b, hs[b].generation) in candidates)
  }

  /** No object of a type flagged `acyclic` lies on an ownership cycle. */
  ghost predicate HonestFlags(hs: Headers) {
    forall b :: 0 <= b < |hs| && hs[b].live && hs[b].kind.Some? && hs[b].kind.value.acyclic ==>
      !OnCycle(GraphOf(hs), b)
  }

  /** Live objects no held handle reaches. */
  ghost function Unreachable(hs: Headers, held: multiset<nat>): set<nat> {
    set b | b in LiveSet(hs) && !Reach(GraphOf(hs), HeldSet(held), b)
  }

  /** Every unreachable live object can be reached from `from`. */
  ghost predicate CoveredFrom(hs: Headers, held: multiset<nat>, from: set<nat>) {
    forall u :: u in Unreachable(hs, held) ==> Reach(GraphOf(hs), from, u)
  }

  // ------------------------------------------------------------------ the graph under updates

  /** The same objects with the same owning fields; counts and marks may differ. */
  ghost predicate SameLinks(hs: Headers, hs2: Headers) {
    && |hs| == |hs2|
    && forall b :: 0 <= b < |hs| ==>
        && hs2[b].live == hs[b].live && hs2[b].generation == hs[b].generation
        && hs2[b].kind == hs[b].kind && hs2[b].fields == hs[b].fields
  }

  lemma SameLinksGraph(hs: Headers, hs2: Headers)
    requires SameLinks(hs, hs2)
    ensures GraphOf(hs2) == GraphOf(hs)
    ensures Links(hs) ==> Links(hs2)
    ensures LiveSet(hs2) == LiveSet(hs)
    ensures HonestFlags(hs) ==> HonestFlags(hs2)
  {
    forall b | 0 <= b < |hs| ensures Children(hs2, b) == Children(hs, b) {
      TraceFrame(hs, hs2, hs[b].fields);
    }
    assert GraphOf(hs2) == GraphOf(hs);
    if Links(hs) {
      forall b | 0 <= b < |hs| && hs[b].live
        ensures FieldsOk(hs2, hs2[b].fields, hs2[b].kind.value)
      {
      }
    }
  }

  /** Edges start and end at live objects. */
  lemma LinksGraph(hs: Headers)
    requires Links(hs)
    ensures WellFormed(GraphOf(hs))
    ensures forall b, w {:trigger w in GraphOf(hs)[b]} :: 0 <= b < |hs| && w in GraphOf(hs)[b] ==>
              b in LiveSet(hs) && w in LiveSet(hs)
  {
    var g := GraphOf(hs);
    forall b, w {:trigger w in g[b]} | 0 <= b < |g| && w in g[b]
      ensures b in LiveSet(hs) && w in LiveSet(hs)
    {
      TraceMember(hs, hs[b].fields, w);
    }
  }

  /** What is reachable from live objects is live. */
  lemma ReachLive(hs: Headers, from: set<nat>, v: nat)
    requires Links(hs) && from <= LiveSet(hs) && Reach(GraphOf(hs), from, v)
    ensures v in LiveSet(hs)
  {
    LinksGraph(hs);
    ReachInsideClosed(GraphOf(hs), from, LiveSet(hs), v);
  }

  /** `hs2` is `hs` with the blocks of `dead` freed. */
  ghost predicate Freed(hs: Headers, hs2: Headers, dead: set<nat>) {
    && |hs| == |hs2|
    && forall b :: 0 <= b < |hs| ==>
        if b in dead then !hs2[b].live && hs2[b].kind.None?
        else
          && hs2[b].live == hs[b].live && hs2[b].generation == hs[b].generation
          && hs2[b].kind == hs[b].kind && hs2[b].fields == hs[b].fields
  }

  /** Freeing blocks that no surviving object owns removes their edges and no others. */
  lemma FreedGraph(hs: Headers, hs2: Headers, dead: set<nat>)
    requires Links(hs) && Freed(hs, hs2, dead)
    requires forall b, w {:trigger w in GraphOf(hs)[b]} ::
               0 <= b < |hs| && b !in dead && w in GraphOf(hs)[b] ==> w !in dead
    ensures Links(hs2)
    ensures forall b :: 0 <= b < |hs| ==>
              GraphOf(hs2)[b] == if b in dead then [] else GraphOf(hs)[b]
    ensures LiveSet(hs2) == LiveSet(hs) - dead
  {
    forall b | 0 <= b < |hs| && b !in dead && hs[b].live
      ensures Children(hs2, b) == Children(hs, b)
      ensures FieldsOk(hs2, hs2[b].fields, hs2[b].kind.value)
    {
      forall r | r in hs[b].fields && r != Null ensures Alive(hs, r) && Alive(hs2, r) {
        TraceMember(hs, hs[b].fields, r.target);
        assert r.target in GraphOf(hs)[b];
      }
      TraceFrame(hs, hs2, hs[b].fields);
    }
  }

  /** Freeing keeps the flags honest: it only removes paths. */
  lemma FreedHonest(hs: Headers, hs2: Headers, dead: set<nat>)
    requires Links(hs) && Freed(hs, hs2, dead)
    requires forall b, w {:trigger w in GraphOf(hs)[b]} ::
               0 <= b < |hs| && b !in dead && w in GraphOf(hs)[b] ==> w !in dead
    requires HonestFlags(hs)
    ensures HonestFlags(hs2)
  {
    FreedGraph(hs, hs2, dead);
    var g, g2 := GraphOf(hs), GraphOf(hs2);
    forall b | 0 <= b < |hs2| && hs2[b].live && hs2[b].kind.value.acyclic
      ensures !OnCycle(g2, b)
    {
      if OnCycle(g2, b) {
        var w :| w in g2[b] && Reach(g2, {w}, b);
        ReachMonotone(g2, g, {w}, b);
      }
    }
  }
}
