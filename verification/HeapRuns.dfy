/** Whole runs of programs over the generational heap: what holds at every point of every run, and
    what a collection leaves behind.
 */
module HeapRuns {
  import opened Graph
  import opened Heap
  import opened HeapCollect
  import opened HeapMarks
  import opened HeapPool
  import opened HeapSnapshot
  import opened HeapState
  import opened HeapSteps
  import opened Wrappers

  /** One step of a program.  `Store` moves a held handle into an owning field and `Take` moves it
      back out; storing a fresh clone, as graph_demo.c does, is `Clone` followed by `Store`. */
  datatype Op =
    | New(kind: GrType)
    | Clone(ref: Ref)
    | Drop(ref: Ref)
    | Store(src: nat, field: nat, ref: Ref)
    | Take(src: nat, field: nat)
    | Collect

  /** The contract of the method that performs `op`. */
  ghost predicate Step(s: Snapshot, op: Op, s2: Snapshot) {
    && Consistent(s2)
    && match op
       case New(kind) => (exists r :: NewEffect(s, kind, r, s2)) && (Tracked(s) ==> Tracked(s2))
       case Clone(r) => CloneEffect(s, r, s2)
       case Drop(r) =>
         && (Alive(s.hs, r) ==> DropEffect(s, r, s2))
         && (!Alive(s.hs, r) ==> s2 == s || s2 == Failed(s))
         && (Tracked(s) ==> Tracked(s2))
       case Store(src, i, r) => MoveEffect(s, src, i, r, s2)
       case Take(src, i) => exists r :: TakeEffect(s, src, i, r, s2)
       case Collect => (exists n :: CollectEffect(s, n, s2)) && (Tracked(s) ==> Tracked(s2))
  }

  /** What a program owes before performing `op`: handles are copied by `Clone` only and discarded
      by `Drop` only, and fields are filled when empty. */
  ghost predicate Allowed(s: Snapshot, op: Op) {
    match op
    case New(kind) => kind.size > 0 && HEADER_BYTES + kind.size <= Pow2(MAX_CLASS)
    case Clone(r) => Alive(s.hs, r)
    case Drop(r) => Alive(s.hs, r) ==> r.target in s.held
    case Store(src, i, r) =>
      && Slot(s.hs, src, i) && s.hs[src].fields[i] == Null && s.hs[src].kind.Some? && s.hs[src].kind.value.traced
      && Alive(s.hs, r) && r.target in s.held
    case Take(src, i) => Slot(s.hs, src, i) && s.hs[src].fields[i] != Null
    case Collect => true
  }

  /** The methods of the heap perform steps. */
  method Perform(h: Heap, op: Op)
    requires h.Valid() && Allowed(h.Now(), op)
    modifies h
    ensures h.Valid() && Step(old(h.Now()), op, h.Now())
  {
    hide Consistent, NewEffect, DropEffect, CollectEffect, Tracked;
    match op
    case New(kind) =>
      var r := h.New(Some(kind));
      assert NewEffect(old(h.Now()), kind, r.value, h.Now());
    case Clone(r) =>
      var _ := h.Clone(r);
    case Drop(r) =>
      h.Drop(r);
    case Store(src, i, r) =>
      h.MoveInto(src, i, r);
    case Take(src, i) =>
      var r := h.TakeFrom(src, i);
      assert TakeEffect(old(h.Now()), src, i, r, h.Now());
    case Collect =>
      var n := h.CollectCycles();
      assert CollectEffect(old(h.Now()), n, h.Now());
  }

  /** A run: the states a program goes through from the empty heap. */
  ghost predicate IsRun(states: seq<Snapshot>, ops: seq<Op>) {
    && |states| == |ops| + 1 && states[0] == Initial()
    && forall i :: 0 <= i < |ops| ==> Step(states[i], ops[i], states[i + 1])
  }

  /** In every state of every run the pool is partitioned and the counts are exact. */
  lemma RunConsistent(states: seq<Snapshot>, ops: seq<Op>, i: nat)
    requires IsRun(states, ops) && i < |states|
    ensures Consistent(states[i])
  {
    if i == 0 {
      InitialConsistent();
    } else {
      assert Step(states[i - 1], ops[i - 1], states[i - 1 + 1]);
    }
  }

  // ------------------------------------------------------------------ the candidate buffer

  /** The buffer's entries for living objects are exactly those flagged buffered, each once; they and
      the purple objects have traced types not flagged acyclic; stale entries have older generations. */
  ghost predicate Ledger(s: Snapshot) {
    && (forall b :: 0 <= b < |s.hs| && s.hs[b].live ==> LedgerAt(s, b))
    && (forall c :: c in s.candidates ==>
          c.header < |s.hs|
          && (c.generation < s.hs[c.header].generation || Current(s.hs, c)))
    && forall i, j :: 0 <= i < j < |s.candidates| ==> s.candidates[i] != s.candidates[j]
  }

  ghost predicate LedgerAt(s: Snapshot, b: nat)
    requires b < |s.hs|
  {
    && (s.hs[b].color == Purple ==> s.hs[b].buffered)
    && (s.hs[b].buffered ==> MayCycle(s.hs[b]))
    && (s.hs[b].buffered <==> Candidate(b, s.hs[b].generation) in s.candidates)
  }

  lemma DropLedger(s: Snapshot, r: Ref, s2: Snapshot)
    requires Ledger(s) && DropEffect(s, r, s2)
    ensures Ledger(s2)
  {
    hide Supported, Outlives, GraphOf, LiveSet;
    NoticedLedger(s, s2);
    NoticedEntries(s, s2);
    forall c | c in s2.candidates
      ensures c.header < |s2.hs| && (c.generation < s2.hs[c.header].generation || Current(s2.hs, c))
    {
      assert c in s.candidates || c in s2.candidates[|s.candidates|..];
      assert Aged(s.hs[c.header], s2.hs[c.header]);
    }
  }

  lemma NoticedLedger(s: Snapshot, s2: Snapshot)
    requires Ledger(s) && Noticed(s.hs, s.candidates, s2.hs, s2.candidates)
    ensures forall b :: 0 <= b < |s2.hs| && s2.hs[b].live ==> LedgerAt(s2, b)
  {
    assert s2.candidates == s.candidates + s2.candidates[|s.candidates|..];
    forall b | 0 <= b < |s2.hs| && s2.hs[b].live ensures LedgerAt(s2, b) {
      assert NoticedAt(s.hs[b], s2.hs[b]);
      assert LedgerAt(s, b);
    }
  }

  lemma NoticedEntries(s: Snapshot, s2: Snapshot)
    requires Ledger(s) && Noticed(s.hs, s.candidates, s2.hs, s2.candidates)
    ensures forall i, j :: 0 <= i < j < |s2.candidates| ==> s2.candidates[i] != s2.candidates[j]
  {
    var n := |s.candidates|;
    var added := s2.candidates[n..];
    forall i, j | 0 <= i < j < |s2.candidates| ensures s2.candidates[i] != s2.candidates[j] {
      if n <= j {
        assert s2.candidates[j] == added[j - n] && added[j - n] in added;
        if i < n {
          assert s.candidates[i] == s2.candidates[i] && s.candidates[i] in s.candidates;
          assert LedgerAt(s, added[j - n].header);
        }
      }
    }
  }

  lemma CollectLedger(s: Snapshot, n: nat, s2: Snapshot)
    requires Ledger(s) && CollectEffect(s, n, s2)
    ensures Ledger(s2)
  {
    hide LiveSet, Garbage, CandidateSubgraph;
    forall b | 0 <= b < |s2.hs| && s2.hs[b].live ensures LedgerAt(s2, b) {
      assert Aged(s.hs[b], s2.hs[b]);
      assert LedgerAt(s, b);
      assert CollectedAt(s.hs[b], s2.hs[b], StrayFlag(s.hs, s.candidates, b), b in CandidateSubgraph(s));
      var c := Candidate(b, s.hs[b].generation);
      if s.hs[b].buffered {
        assert c in s.candidates && Current(s.hs, c);
        if s.hs[b].color == Purple {
          PurpleInside(s, c);
        }
      }
    }
  }

  lemma PurpleInside(s: Snapshot, c: Candidate)
    requires c in s.candidates && Current(s.hs, c) && s.hs[c.header].color == Purple
    ensures c.header in CandidateSubgraph(s)
  {
    RootsLive(s.hs, s.candidates);
    RootsInside(s.hs, Roots(s.hs, s.candidates));
    assert c.header in Roots(s.hs, s.candidates);
  }

  lemma NewLedger(s: Snapshot, kind: GrType, r: Ref, s2: Snapshot)
    requires Ledger(s) && NewEffect(s, kind, r, s2)
    ensures Ledger(s2)
  {
    forall b | 0 <= b < |s2.hs| && s2.hs[b].live ensures LedgerAt(s2, b) {
      if b != r.target {
        assert LedgerAt(s, b);
      }
    }
  }

  lemma StepLedger(s: Snapshot, op: Op, s2: Snapshot)
    requires Ledger(s) && Step(s, op, s2)
    ensures Ledger(s2)
  {
    hide Consistent, Tracked, NewEffect, DropEffect, CollectEffect, Ledger;
    match op
    case New(kind) =>
      var r :| NewEffect(s, kind, r, s2);
      NewLedger(s, kind, r, s2);
    case Clone(r) => FieldLedger(s, r.target, s2);
    case Drop(r) =>
      if Alive(s.hs, r) {
        DropLedger(s, r, s2);
      } else {
        FieldLedger(s, 0, s2);
      }
    case Store(src, _, _) => FieldLedger(s, src, s2);
    case Take(src, _) => FieldLedger(s, src, s2);
    case Collect =>
      var n :| CollectEffect(s, n, s2);
      CollectLedger(s, n, s2);
  }

  /** A step that changes one header in its count and fields, or blackens it, and no candidate. */
  lemma FieldLedger(s: Snapshot, b: nat, s2: Snapshot)
    requires Ledger(s) && |s2.hs| == |s.hs| && s2.candidates == s.candidates
    requires forall x :: 0 <= x < |s.hs| && x != b ==> s2.hs[x] == s.hs[x]
    requires b < |s.hs| ==>
               && s2.hs[b] == s.hs[b].(owners := s2.hs[b].owners, fields := s2.hs[b].fields, color := s2.hs[b].color)
               && (s2.hs[b].color == s.hs[b].color || s2.hs[b].color == Black)
    ensures Ledger(s2)
  {
    forall x | 0 <= x < |s2.hs| && s2.hs[x].live ensures LedgerAt(s2, x) {
      assert LedgerAt(s, x);
    }
  }

  /** In every state of every run the candidate buffer is exact. */
  lemma {:induction false} RunLedger(states: seq<Snapshot>, ops: seq<Op>, i: nat)
    requires IsRun(states, ops) && i < |states|
    ensures Ledger(states[i])
  {
    hide Step, Ledger, Initial;
    if i == 0 {
      EmptyLedger();
    } else {
      RunLedger(states, ops, i - 1);
      assert Step(states[i - 1], ops[i - 1], states[i - 1 + 1]);
      StepLedger(states[i - 1], ops[i - 1], states[i]);
    }
  }

  lemma EmptyLedger()
    ensures Ledger(Initial())
  {
  }

  /** Objects of types that are not traced or flagged acyclic are never purple and never candidates. */
  lemma NeverSuspected(states: seq<Snapshot>, ops: seq<Op>, i: nat, b: nat)
    requires IsRun(states, ops) && i < |states|
    requires b < |states[i].hs| && states[i].hs[b].live && !MayCycle(states[i].hs[b])
    ensures states[i].hs[b].color != Purple && !states[i].hs[b].buffered
    ensures Candidate(b, states[i].hs[b].generation) !in states[i].candidates
  {
    hide Step, Initial;
    RunLedger(states, ops, i);
    assert LedgerAt(states[i], b);
  }

  // ------------------------------------------------------------------ completeness

  /** The discipline under which cycles are never lost: a handle is stored only where the remaining
      handles or the candidates still reach one end of the new edge, and no acyclic-flagged object is
      put on a cycle.  The other operations need none. */
  ghost predicate Disciplined(s: Snapshot, op: Op, s2: Snapshot) {
    match op
    case Store(src, _, r) => StoreReached(s, src, r, s2) && HonestFlags(s2.hs)
    case _ => true
  }

  lemma StepTracked(s: Snapshot, op: Op, s2: Snapshot)
    requires Consistent(s) && Tracked(s) && Step(s, op, s2) && Disciplined(s, op, s2)
    ensures Tracked(s2)
  {
    hide Consistent, Tracked, NewEffect, DropEffect, CollectEffect;
    match op
    case Clone(r) => CloneTracked(s, r, s2);
    case Store(src, i, r) => MoveTracked(s, src, i, r, s2);
    case Take(src, i) =>
      var r :| TakeEffect(s, src, i, r, s2);
      TakeTracked(s, src, i, r, s2);
    case _ =>
  }

  lemma {:induction false} RunTracked(states: seq<Snapshot>, ops: seq<Op>, i: nat)
    requires IsRun(states, ops) && i < |states|
    requires forall j :: 0 <= j < |ops| ==> Disciplined(states[j], ops[j], states[j + 1])
    ensures Tracked(states[i])
  {
    hide Consistent, Tracked, Step, Disciplined, Initial;
    if i == 0 {
      InitialConsistent();
    } else {
      RunTracked(states, ops, i - 1);
      RunConsistent(states, ops, i - 1);
      assert Step(states[i - 1], ops[i - 1], states[i - 1 + 1]);
      StepTracked(states[i - 1], ops[i - 1], states[i]);
    }
  }

  /** With honest flags the discipline is exact: every state of a run has its unreachable objects
      covered if and only if every step keeps the discipline. */
  lemma DisciplineExactly(states: seq<Snapshot>, ops: seq<Op>)
    requires IsRun(states, ops) && forall i :: 0 <= i < |states| ==> HonestFlags(states[i].hs)
    ensures (forall i :: 0 <= i < |states| ==> Covered(states[i])) <==>
            (forall j :: 0 <= j < |ops| ==> Disciplined(states[j], ops[j], states[j + 1]))
  {
    hide Consistent, Covered, HonestFlags, StoreReached, Buffered;
    if forall j :: 0 <= j < |ops| ==> Disciplined(states[j], ops[j], states[j + 1]) {
      forall i | 0 <= i < |states| ensures Covered(states[i]) {
        RunTracked(states, ops, i);
      }
    }
    if forall i :: 0 <= i < |states| ==> Covered(states[i]) {
      forall j | 0 <= j < |ops| && ops[j].Store? ensures Disciplined(states[j], ops[j], states[j + 1]) {
        RunConsistent(states, ops, j);
        assert Step(states[j], ops[j], states[j + 1]);
        MoveCoveredExactly(states[j], ops[j].src, ops[j].field, ops[j].ref, states[j + 1]);
      }
    }
  }

  /** A collection leaves exactly the reachable objects alive if and only if every unreachable
      object could be reached from its candidates. */
  lemma CompleteExactly(s: Snapshot, n: nat, s2: Snapshot)
    requires Consistent(s) && CollectEffect(s, n, s2)
    ensures LiveSet(s2.hs) == ReachSet(GraphOf(s.hs), HeldSet(s.held)) <==> Covered(s)
  {
    hide Storage, Links, Counts, Reach, Garbage;
    var g, garbage := GraphOf(s.hs), Garbage(s.hs, s.held, CandidateSubgraph(s));
    CollectionMeans(s);
    GarbageIsEverything(s.hs, s.held, Roots(s.hs, s.candidates));
    HeldSetLive(s.hs, s.held);
    forall b ensures b in ReachSet(g, HeldSet(s.held)) <==> b in LiveSet(s.hs) - Unreachable(s.hs, s.held) {
      if b in ReachSet(g, HeldSet(s.held)) {
        ReachLive(s.hs, HeldSet(s.held), b);
      }
    }
    assert garbage == Unreachable(s.hs, s.held)
      <==> LiveSet(s.hs) - garbage == LiveSet(s.hs) - Unreachable(s.hs, s.held);
  }

  /** Collector completeness over whole runs: after a collection in a disciplined run, an object is
      alive exactly when a held handle reaches it. */
  lemma CollectionComplete(states: seq<Snapshot>, ops: seq<Op>, i: nat)
    requires IsRun(states, ops) && i < |ops| && ops[i] == Collect
    requires forall j :: 0 <= j < |ops| ==> Disciplined(states[j], ops[j], states[j + 1])
    ensures LiveSet(states[i + 1].hs)
         == ReachSet(GraphOf(states[i + 1].hs), HeldSet(states[i + 1].held))
         == ReachSet(GraphOf(states[i].hs), HeldSet(states[i].held))
  {
    hide Storage, Links, Counts, Reach, Garbage;
    var s, s2 := states[i], states[i + 1];
    RunConsistent(states, ops, i);
    RunTracked(states, ops, i);
    RunConsistent(states, ops, i + 1);
    RunTracked(states, ops, i + 1);
    assert Step(s, ops[i], states[i + 1]);
    var n :| CollectEffect(s, n, s2);
    CompleteExactly(s, n, s2);
    SurvivorsReachable(s, n, s2);
  }

  lemma SurvivorsReachable(s: Snapshot, n: nat, s2: Snapshot)
    requires Consistent(s) && Consistent(s2) && CollectEffect(s, n, s2) && Covered(s)
    ensures LiveSet(s2.hs) == ReachSet(GraphOf(s2.hs), HeldSet(s2.held))
  {
    hide Storage, Reach, Garbage, Children;
    var g, g2, held := GraphOf(s.hs), GraphOf(s2.hs), HeldSet(s.held);
    CollectionMeans(s);
    CollectionMeans(s2);
    CompleteExactly(s, n, s2);
    HeldSetLive(s2.hs, s2.held);
    LinksGraph(s.hs);
    ReachSetClosed(g, held);
    forall b | b in LiveSet(s2.hs) ensures Reach(g2, held, b) {
      SurvivorEdges(s, s2);
      HeldSetLive(s.hs, s.held);
      ReachTransfers(g, g2, held, ReachSet(g, held), b);
    }
    forall b | b in ReachSet(g2, held) ensures b in LiveSet(s2.hs) {
      ReachLive(s2.hs, held, b);
    }
  }

  /** Survivors of any shrinking step keep their edges when those lead to survivors. */
  lemma SurvivorEdges(s: Snapshot, s2: Snapshot)
    requires Links(s.hs) && Links(s2.hs) && Shrunk(s.hs, s2.hs)
    requires Closed(GraphOf(s.hs), LiveSet(s2.hs))
    ensures AgreesOn(GraphOf(s.hs), GraphOf(s2.hs), LiveSet(s2.hs))
  {
    forall b | b in LiveSet(s2.hs) ensures Children(s2.hs, b) == Children(s.hs, b) {
      assert Aged(s.hs[b], s2.hs[b]);
      forall r | r in s.hs[b].fields ensures Alive(s.hs, r) <==> Alive(s2.hs, r) {
        TraceMember(s.hs, s.hs[b].fields, if r.Handle? then r.target else 0);
        if Alive(s.hs, r) {
          assert FieldsOk(s.hs, s.hs[b].fields, s.hs[b].kind.value);
          assert r.target in GraphOf(s.hs)[b];
        }
      }
      TraceFrame(s.hs, s2.hs, s.hs[b].fields);
    }
  }

  // ------------------------------------------------------------------ soundness

  /** Nothing the remaining handles reach dies in a drop or a collection, whatever the history and
      whatever the candidate buffer holds. */
  lemma ReachableSurvives(s: Snapshot, op: Op, s2: Snapshot, b: nat)
    requires Consistent(s) && Step(s, op, s2) && (op.Drop? || op.Collect?)
    requires Reach(GraphOf(s.hs), HeldSet(s2.held), b)
    ensures b < |s.hs| && b < |s2.hs| && s2.hs[b].live
    ensures s2.hs[b].generation == s.hs[b].generation && s2.hs[b].fields == s.hs[b].fields
  {
    hide Storage, Links, Counts, Reach, Garbage, Children;
    CollectionMeans(s);
    HeldSetLive(s.hs, s.held);
    assert HeldSet(s2.held) <= HeldSet(s.held);
    ReachLive(s.hs, HeldSet(s2.held), b);
    var g := GraphOf(s.hs);
    match op
    case Drop(r) =>
      if Alive(s.hs, r) {
        LinksGraph(s.hs);
        ReachableIsSupported(g, HeldSet(s2.held));
        forall v | v in ReachSet(g, HeldSet(s2.held)) ensures v in LiveSet(s.hs) {
          ReachLive(s.hs, HeldSet(s2.held), v);
        }
        assert b in ReachSet(g, HeldSet(s2.held)) && b in LiveSet(s2.hs);
        assert Aged(s.hs[b], s2.hs[b]);
      }
    case Collect =>
      var n :| CollectEffect(s, n, s2);
      GarbageIsUnreachable(s.hs, s.held, CandidateSubgraph(s));
      assert b in ReachSet(g, HeldSet(s.held)) && b in LiveSet(s2.hs);
      assert Aged(s.hs[b], s2.hs[b]);
  }

  // ------------------------------------------------------------------ generations

  /** Generations only grow, and the log of allocations is only extended. */
  lemma StepMonotone(s: Snapshot, op: Op, s2: Snapshot)
    requires Consistent(s) && Step(s, op, s2)
    ensures s.log <= s2.log && |s.hs| <= |s2.hs|
    ensures forall b :: 0 <= b < |s.hs| ==> s.hs[b].generation <= s2.hs[b].generation
  {
    hide Consistent, Tracked, Garbage, Supported, Outlives, Noticed, Remarked;
    match op
    case New(kind) =>
      var r :| NewEffect(s, kind, r, s2);
    case Take(src, i) =>
      var r :| TakeEffect(s, src, i, r, s2);
    case Collect =>
      var n :| CollectEffect(s, n, s2);
      forall b | 0 <= b < |s.hs| ensures Aged(s.hs[b], s2.hs[b]) {
      }
    case Drop(r) =>
      if Alive(s.hs, r) {
        forall b | 0 <= b < |s.hs| ensures Aged(s.hs[b], s2.hs[b]) {
        }
      }
    case _ =>
  }

  lemma {:induction false} RunMonotone(states: seq<Snapshot>, ops: seq<Op>, i: nat, j: nat)
    requires IsRun(states, ops) && i <= j < |states|
    ensures states[i].log <= states[j].log && |states[i].hs| <= |states[j].hs|
    ensures forall b :: 0 <= b < |states[i].hs| ==> states[i].hs[b].generation <= states[j].hs[b].generation
  {
    hide Step, Consistent;
    if i < j {
      RunMonotone(states, ops, i, j - 1);
      RunConsistent(states, ops, j - 1);
      assert Step(states[j - 1], ops[j - 1], states[j - 1 + 1]);
      StepMonotone(states[j - 1], ops[j - 1], states[j]);
    }
  }

  /** A live reference is to a logged allocation, and a logged one that is not live is past. */
  lemma LoggedMeans(s: Snapshot, r: Ref)
    requires Consistent(s)
    ensures Alive(s.hs, r) ==> (r.target, r.generation) in s.log
    ensures r.Handle? && (r.target, r.generation) in s.log && !Alive(s.hs, r) ==>
              r.target < |s.hs| && s.hs[r.target].generation > r.generation
  {
    hide Links, Counts, Settled;
  }

  /** Generation identity: a reference that once was live and then is not never is again, however
      often its block is reused. */
  lemma DeadForever(states: seq<Snapshot>, ops: seq<Op>, r: Ref, i: nat, j: nat, k: nat)
    requires IsRun(states, ops) && i <= j <= k < |states|
    requires Alive(states[i].hs, r) && !Alive(states[j].hs, r)
    ensures !Alive(states[k].hs, r)
  {
    RunConsistent(states, ops, i);
    RunConsistent(states, ops, j);
    LoggedMeans(states[i], r);
    RunMonotone(states, ops, i, j);
    LoggedMeans(states[j], r);
    RunMonotone(states, ops, j, k);
  }

  /** No two allocations of a run hand out the same reference. */
  lemma AllocationsDiffer(states: seq<Snapshot>, ops: seq<Op>, i: nat, j: nat, r: Ref, r2: Ref)
    requires IsRun(states, ops) && i < j < |ops| && ops[i].New? && ops[j].New?
    requires NewEffect(states[i], ops[i].kind, r, states[i + 1])
    requires NewEffect(states[j], ops[j].kind, r2, states[j + 1])
    ensures r != r2
  {
    hide Step, Consistent;
    RunMonotone(states, ops, i + 1, j);
  }

  // ------------------------------------------------------------------ outside the discipline

  /** Collection is documented to free all garbage that owns itself. Outside the discipline it does
      not: an object whose only handle is moved into its own field is never a candidate, so it
      outlives every collection. */
  method SelfOwner(kind: GrType) returns (h: Heap, r: Ref, reclaimed: nat)
    requires kind.size > 0 && kind.slots > 0 && kind.traced && HEADER_BYTES + kind.size <= Pow2(MAX_CLASS)
    ensures fresh(h) && h.Valid() && reclaimed == 0
    ensures h.held == multiset{} && Alive(h.headers, r) && h.headers[r.target].owners > 0
    ensures r.target in Unreachable(h.headers, h.held)
  {
    hide Consistent, Tracked, Garbage, Reach, Children, Covered, LiveSet, Unreachable, Shrunk, CandidateSubgraph, Pow2;
    h := new Heap();
    var created := h.New(Some(kind));
    r := created.value;
    ghost var s1 := h.Now();
    assert h.held == multiset{r.target};
    h.MoveInto(r.target, 0, r);
    ghost var s2 := h.Now();
    assert h.held == multiset{};
    NoRoots(s2);
    reclaimed := h.CollectCycles();
    SelfOwnerSurvives(s2, reclaimed, h.Now(), r);
  }

  lemma SelfOwnerSurvives(s: Snapshot, n: nat, s2: Snapshot, r: Ref)
    requires Consistent(s) && Consistent(s2) && s.candidates == [] && s.held == multiset{}
    requires CollectEffect(s, n, s2) && Alive(s.hs, r)
    ensures n == 0 && Alive(s2.hs, r) && s2.hs[r.target].owners > 0
    ensures r.target in Unreachable(s2.hs, s2.held)
  {
    hide Storage, Links, Garbage, Reach, Children, EdgesFrom;
    NoRoots(s);
    assert r.target in LiveSet(s2.hs);
    assert Aged(s.hs[r.target], s2.hs[r.target]);
    NothingHeld(s2);
  }

  lemma NoRoots(s: Snapshot)
    requires s.candidates == [] && Consistent(s)
    ensures Roots(s.hs, s.candidates) == {} && Garbage(s.hs, s.held, CandidateSubgraph(s)) == {}
  {
    hide Consistent, Children;
  }

  lemma NothingHeld(s: Snapshot)
    requires s.held == multiset{}
    ensures Unreachable(s.hs, s.held) == LiveSet(s.hs)
  {
    hide Children;
    assert HeldSet(s.held) == {};
  }
}
