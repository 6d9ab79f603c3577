/** What releases and collections leave in the colours, the buffered flags and the candidate buffer
    (experiments/genref/genref.c:256-300, 402-519): an object becomes a candidate exactly when it
    survives the loss of an owner and its type can take part in a cycle.
 */
module HeapMarks {
  import opened Graph
  import opened HeapCollect
  import opened HeapPool
  import opened HeapRelease
  import opened HeapSnapshot
  import opened HeapState
  import opened Wrappers

  /** Types whose objects can lie on an ownership cycle: they are traced and not flagged acyclic. */
  predicate MayCycle(h: Header) {
    h.kind.Some? && h.kind.value.traced && !h.kind.value.acyclic
  }

  /** An object that lost an owner and can lie on a cycle. */
  predicate Suspected(h: Header, h2: Header) {
    h2.owners < h.owners && MayCycle(h)
  }

  /** What releases do to the header of a survivor. */
  ghost predicate NoticedAt(h: Header, h2: Header) {
    && h.live && h2.owners <= h.owners
    && h2 == if Suspected(h, h2) then h.(owners := h2.owners, color := Purple, buffered := true)
             else h.(owners := h2.owners)
  }

  /** Entries that name objects alive at the time, of types that can take part in a cycle, not yet
      buffered, each once. */
  ghost predicate Entries(hs: Headers, added: seq<Candidate>) {
    && (forall c :: c in added ==>
          c.header < |hs| && hs[c.header].live && c.generation == hs[c.header].generation
          && MayCycle(hs[c.header]) && !hs[c.header].buffered)
    && forall i, j :: 0 <= i < j < |added| ==> added[i].header != added[j].header
  }

  /** Releases turned the one heap and buffer into the other: the survivors that lost an owner and can
      lie on a cycle are purple and buffered, and those not buffered before are exactly what was
      added to the buffer, apart from objects that died after being added. */
  ghost predicate Noticed(hs: Headers, cs: seq<Candidate>, hs2: Headers, cs2: seq<Candidate>) {
    && |hs2| == |hs| && cs <= cs2 && Entries(hs, cs2[|cs|..])
    && forall b :: 0 <= b < |hs| && hs2[b].live ==>
         && NoticedAt(hs[b], hs2[b])
         && (Candidate(b, hs2[b].generation) in cs2[|cs|..] <==> Suspected(hs[b], hs2[b]) && !hs[b].buffered)
  }

  lemma NoticedStart(hs: Headers, cs: seq<Candidate>)
    ensures Noticed(hs, cs, hs, cs)
  {
    assert cs[|cs|..] == [];
  }

  lemma NoticedDecrement(hs0: Headers, cs0: seq<Candidate>, s: Snapshot, b: nat)
    requires Noticed(hs0, cs0, s.hs, s.candidates) && b < |s.hs| && s.hs[b].live && s.hs[b].owners > 1
    ensures Noticed(hs0, cs0, AfterDecrement(s, b).hs, AfterDecrement(s, b).candidates)
  {
    var s2 := AfterDecrement(s, b);
    var added, c := s.candidates[|cs0|..], Candidate(b, s.hs[b].generation);
    assert NoticedAt(hs0[b], s.hs[b]);
    if Notable(s.hs[b]) && !s.hs[b].buffered {
      assert s2.candidates[|cs0|..] == added + [c];
      assert c !in added;
      forall i | 0 <= i < |added| ensures added[i].header != b {
        assert added[i] in added;
      }
    } else {
      assert s2.candidates[|cs0|..] == added;
    }
    forall x | 0 <= x < |s2.hs| && s2.hs[x].live
      ensures NoticedAt(hs0[x], s2.hs[x])
      ensures Candidate(x, s2.hs[x].generation) in s2.candidates[|cs0|..]
         <==> Suspected(hs0[x], s2.hs[x]) && !hs0[x].buffered
    {
      assert s.hs[x].live && NoticedAt(hs0[x], s.hs[x]);
    }
  }

  lemma NoticedFree(hs0: Headers, cs0: seq<Candidate>, s: Snapshot, b: nat)
    requires Noticed(hs0, cs0, s.hs, s.candidates)
    requires b < |s.hs| && s.hs[b].live && s.stats.liveObjects > 0 && Storage(s)
    ensures Noticed(hs0, cs0, AfterFree(s, b).hs, AfterFree(s, b).candidates)
  {
    hide Storage;
  }

  // ------------------------------------------------------------------ collections

  /** Freeing the group after the releases: nothing released was in it. */
  lemma NoticedGroup(hs4: Headers, cs4: seq<Candidate>, hs5: Headers, cs5: seq<Candidate>, hs6: Headers,
                     dead: set<nat>)
    requires Noticed(hs4, cs4, hs5, cs5) && GroupFreed(hs5, hs6, dead)
    requires forall b :: 0 <= b < |hs4| ==> hs4[b].color != Gray && (hs5[b].live <==> hs4[b].live)
    requires forall b :: b in dead && b < |hs4| ==> hs5[b].owners == hs4[b].owners
    ensures Noticed(hs4, cs4, hs6, cs5)
    ensures forall c :: c in cs5[|cs4|..] ==> Current(hs6, c)
  {
    forall b | 0 <= b < |hs4| && hs6[b].live ensures hs6[b] == hs5[b] && hs5[b].live {
      assert hs5[b].live;
      assert NoticedAt(hs4[b], hs5[b]);
    }
    forall c | c in cs5[|cs4|..] ensures Current(hs6, c) {
      assert hs5[c.header].live && NoticedAt(hs4[c.header], hs5[c.header]);
      assert c == Candidate(c.header, hs5[c.header].generation);
    }
  }

  lemma NothingReleased(hs0: Headers, hs4: Headers, hs5: Headers, garbage: set<nat>, released: multiset<nat>)
    requires Sorted(hs0, hs4, garbage) && GroupReleased(hs4, hs5, released)
    requires forall n :: n in released ==> n < |hs4| && hs4[n].color != White
    ensures |hs5| == |hs4|
    ensures forall b :: 0 <= b < |hs4| ==> hs4[b].color != Gray && (hs5[b].live <==> hs4[b].live)
    ensures forall b :: b in garbage && b < |hs4| ==> hs5[b].owners == hs4[b].owners
  {
  }

  /** A buffered flag without an entry in the buffer. */
  ghost predicate StrayFlag(hs: Headers, cs: seq<Candidate>, b: nat)
    requires b < |hs|
  {
    hs[b].buffered && b !in CurrentBlocks(hs, cs)
  }

  ghost predicate CollectedAt(h: Header, h2: Header, stray: bool, inside: bool) {
    && h.live && h2.owners <= h.owners
    && h2 == h.(owners := h2.owners, trial := h2.trial, buffered := stray || Suspected(h, h2),
                color := if Suspected(h, h2) then Purple else if inside then Black else h.color)
  }

  /** What a collection over the subgraph `group` does to marks and buffer: every entry is taken out,
      the subgraph is painted black, and of the survivors exactly those that lost an owner to the
      garbage and can lie on a cycle are purple and buffered again. */
  ghost predicate Remarked(hs: Headers, cs: seq<Candidate>, group: set<nat>, hs2: Headers, cs2: seq<Candidate>) {
    && |hs2| == |hs|
    && (forall c :: c in cs2 ==> Current(hs2, c))
    && (forall i, j :: 0 <= i < j < |cs2| ==> cs2[i].header != cs2[j].header)
    && forall b :: 0 <= b < |hs| && hs2[b].live ==>
         && CollectedAt(hs[b], hs2[b], StrayFlag(hs, cs, b), b in group)
         && (Candidate(b, hs2[b].generation) in cs2 <==> Suspected(hs[b], hs2[b]) && !StrayFlag(hs, cs, b))
  }

  lemma RemarkedBy(hs: Headers, cs: seq<Candidate>, group: set<nat>, garbage: set<nat>, hs0: Headers, hs4: Headers,
                   hs6: Headers, cs6: seq<Candidate>)
    requires Filtered(hs, hs0, CurrentBlocks(hs, cs))
    requires Sorted(hs0, hs4, garbage) && Repainted(hs0, hs4, group)
    requires Noticed(hs4, [], hs6, cs6) && forall c :: c in cs6 ==> Current(hs6, c)
    requires forall b :: b in garbage && b < |hs6| ==> !hs6[b].live
    ensures Remarked(hs, cs, group, hs6, cs6)
  {
    hide CurrentBlocks;
    assert cs6[0..] == cs6;
    forall b | 0 <= b < |hs| && hs6[b].live
      ensures CollectedAt(hs[b], hs6[b], StrayFlag(hs, cs, b), b in group)
      ensures Candidate(b, hs6[b].generation) in cs6 <==> Suspected(hs[b], hs6[b]) && !StrayFlag(hs, cs, b)
    {
      assert NoticedAt(hs4[b], hs6[b]);
      assert hs4[b] == hs0[b].(color := hs4[b].color, trial := hs4[b].trial);
    }
  }
}
