/** Storage of the generational heap: size classes, linked free lists and block generations
    (experiments/genref/genref.c:124-252).
 */
module HeapPool {
  import opened Graph
  import opened HeapState
  import opened Wrappers

  type Heads = seq<Option<nat>>

  /** `c` is the smallest size class of at least 64 bytes that holds `bytes` bytes. */
  ghost predicate BestClass(bytes: nat, c: nat) {
    && MIN_CLASS <= c <= MAX_CLASS
    && bytes <= Pow2(c)
    && (c == MIN_CLASS || Pow2(c - 1) < bytes)
  }

  /** `list` is what following `next_free` from `head` visits: dead blocks of class `c`, no block
      twice, ending in null. */
  ghost predicate Chain(hs: Headers, head: Option<nat>, list: seq<nat>, c: nat) {
    && head == First(list)
    && (forall i :: 0 <= i < |list| ==>
          list[i] < |hs| && !hs[list[i]].live && hs[list[i]].classIndex == c)
    && (forall i {:trigger Linked(hs, list, i)} :: 0 <= i < |list| ==> Linked(hs, list, i))
    && (forall i, j :: 0 <= i < j < |list| ==> list[i] != list[j])
  }

  /** `next_free` of an entry is the entry after it. */
  ghost predicate Linked(hs: Headers, list: seq<nat>, i: nat)
    requires i < |list| && list[i] < |hs|
  {
    hs[list[i]].nextFree == First(list[i + 1..])
  }

  ghost function First(list: seq<nat>): Option<nat> {
    if list == [] then None else Some(list[0])
  }

  /** A block header in a reachable state. */
  ghost predicate BlockOk(h: Header) {
    && MIN_CLASS <= h.classIndex <= MAX_CLASS
    && h.generation >= 1
    && (h.live <==> h.kind.Some?)
    && (h.live ==> h.nextFree.None? && BestClass(HEADER_BYTES + h.kind.value.size, h.classIndex))
    && (!h.live ==> h.owners == 0 && h.color == Black && !h.buffered)
  }

  /** The log of all allocations made: a pair is past when its generation is below the block's
      current one, and otherwise it is the live object in the block. */
  ghost predicate Logged(hs: Headers, log: set<(nat, nat)>) {
    && (forall p :: p in log ==> Past(hs, p) || IsCurrent(hs, p))
    && (forall b :: 0 <= b < |hs| && hs[b].live ==> (b, hs[b].generation) in log)
  }

  ghost predicate Past(hs: Headers, p: (nat, nat)) {
    p.0 < |hs| && p.1 < hs[p.0].generation
  }

  ghost predicate IsCurrent(hs: Headers, p: (nat, nat)) {
    p.0 < |hs| && p.1 == hs[p.0].generation && hs[p.0].live
  }

  /** Every block is live or on the free list of its own class, exactly once. */
  ghost predicate Pool(hs: Headers, heads: Heads, lists: seq<seq<nat>>, log: set<(nat, nat)>) {
    && |heads| == |lists| == MAX_CLASS + 1
    && (forall b :: 0 <= b < |hs| ==> BlockOk(hs[b]))
    && (forall c :: 0 <= c < |lists| ==> Chain(hs, heads[c], lists[c], c))
    && Listed(hs, lists)
    && Logged(hs, log)
  }

  /** Every dead block is on the free list of its class. */
  ghost predicate Listed(hs: Headers, lists: seq<seq<nat>>) {
    forall b :: 0 <= b < |hs| && !hs[b].live ==> hs[b].classIndex < |lists| && b in lists[hs[b].classIndex]
  }

  lemma ChainFrame(hs: Headers, hs2: Headers, head: Option<nat>, list: seq<nat>, c: nat)
    requires Chain(hs, head, list, c) && |hs| <= |hs2|
    requires forall i :: 0 <= i < |list| ==> hs2[list[i]] == hs[list[i]]
    ensures Chain(hs2, head, list, c)
  {
    forall i | 0 <= i < |list| ensures Linked(hs2, list, i) {
      assert Linked(hs, list, i);
    }
  }

  lemma ChainDead(hs: Headers, head: Option<nat>, list: seq<nat>, c: nat)
    requires Chain(hs, head, list, c)
    ensures forall b :: b in list ==> b < |hs| && !hs[b].live && hs[b].classIndex == c
  {
  }

  lemma ChainHead(hs: Headers, head: Option<nat>, list: seq<nat>, c: nat)
    requires Chain(hs, head, list, c) && head.Some?
    ensures list != [] && list[0] == head.value && head.value in list
  {
  }

  lemma ChainPush(hs: Headers, head: Option<nat>, list: seq<nat>, c: nat, b: nat)
    requires Chain(hs, head, list, c) && b < |hs| && b !in list
    requires !hs[b].live && hs[b].classIndex == c && hs[b].nextFree == head
    ensures Chain(hs, Some(b), [b] + list, c)
  {
    var longer := [b] + list;
    forall i | 0 <= i < |longer| ensures Linked(hs, longer, i) {
      if i == 0 {
        assert longer[0 + 1..] == list;
      } else {
        assert Linked(hs, list, i - 1);
        assert longer[i + 1..] == list[i - 1 + 1..];
      }
    }
  }

  lemma ChainPop(hs: Headers, head: Option<nat>, list: seq<nat>, c: nat)
    requires Chain(hs, head, list, c) && list != []
    ensures Chain(hs, hs[list[0]].nextFree, list[1..], c)
    ensures list[0] !in list[1..]
  {
    var shorter := list[1..];
    assert Linked(hs, list, 0);
    forall i | 0 <= i < |shorter| ensures Linked(hs, shorter, i) {
      assert Linked(hs, list, i + 1);
      assert shorter[i + 1..] == list[i + 1 + 1..];
    }
  }

  /** What counting, colouring, tracing and storing leave alone. */
  ghost predicate SameStorage(hs: Headers, hs2: Headers) {
    && |hs| == |hs2|
    && forall b :: 0 <= b < |hs| ==>
        && hs2[b].generation == hs[b].generation && hs2[b].kind == hs[b].kind
        && hs2[b].live == hs[b].live && hs2[b].classIndex == hs[b].classIndex
        && hs2[b].nextFree == hs[b].nextFree && (!hs[b].live ==> hs2[b] == hs[b])
  }

  lemma PoolSameStorage(hs: Headers, hs2: Headers, heads: Heads, lists: seq<seq<nat>>, log: set<(nat, nat)>)
    requires Pool(hs, heads, lists, log) && SameStorage(hs, hs2)
    ensures Pool(hs2, heads, lists, log)
  {
    hide Chain;
    forall c | 0 <= c < |lists| ensures Chain(hs2, heads[c], lists[c], c) {
      assert Chain(hs, heads[c], lists[c], c);
      ChainDead(hs, heads[c], lists[c], c);
      ChainFrame(hs, hs2, heads[c], lists[c], c);
    }
    forall b | 0 <= b < |hs2| ensures BlockOk(hs2[b]) {
      assert BlockOk(hs[b]);
    }
  }

  /** `free_block`: the generation moves on and the block heads the free list of its class. */
  function FreedHeader(h: Header, next: Option<nat>): Header {
    h.(generation := h.generation + 1, live := false, buffered := false, color := Black,
       owners := 0, kind := None, nextFree := next)
  }

  lemma PoolFree(hs: Headers, heads: Heads, lists: seq<seq<nat>>, log: set<(nat, nat)>, b: nat)
    requires Pool(hs, heads, lists, log) && b < |hs| && hs[b].live
    ensures var c := hs[b].classIndex;
            Pool(hs[b := FreedHeader(hs[b], heads[c])], heads[c := Some(b)],
                 lists[c := [b] + lists[c]], log)
  {
    hide Chain, BestClass, Listed;
    var c := hs[b].classIndex;
    assert BlockOk(hs[b]);
    var hs2, heads2 := hs[b := FreedHeader(hs[b], heads[c])], heads[c := Some(b)];
    var lists2 := lists[c := [b] + lists[c]];
    forall k | 0 <= k < |lists2| ensures Chain(hs2, heads2[k], lists2[k], k) {
      var l := lists[k];
      assert Chain(hs, heads[k], l, k);
      ChainDead(hs, heads[k], l, k);
      ChainFrame(hs, hs2, heads[k], l, k);
      if k == c {
        ChainPush(hs2, heads[c], l, c, b);
      }
    }
    forall x | 0 <= x < |hs2| ensures BlockOk(hs2[x]) {
      assert BlockOk(hs[x]);
    }
    ListedPush(hs, hs2, lists, b);
  }

  /** One block died, or was carved, and was pushed on the list of its class. */
  lemma ListedPush(hs: Headers, hs2: Headers, lists: seq<seq<nat>>, b: nat)
    requires Listed(hs, lists) && b < |hs2| && hs2[b].classIndex < |lists|
    requires forall x :: 0 <= x < |hs2| && x != b ==> x < |hs| && hs2[x] == hs[x]
    ensures Listed(hs2, lists[hs2[b].classIndex := [b] + lists[hs2[b].classIndex]])
  {
    var c := hs2[b].classIndex;
    assert ([b] + lists[c])[0] == b;
  }

  /** The head of list `c` was taken off it and came to life. */
  lemma ListedPop(hs: Headers, hs2: Headers, lists: seq<seq<nat>>, c: nat)
    requires Listed(hs, lists) && c < |lists| && lists[c] != [] && lists[c][0] < |hs| == |hs2|
    requires hs2[lists[c][0]].live
    requires forall x :: 0 <= x < |hs2| && x != lists[c][0] ==> hs2[x] == hs[x]
    ensures Listed(hs2, lists[c := lists[c][1..]])
  {
    assert lists[c] == [lists[c][0]] + lists[c][1..];
  }

  /** `gr_new` after its free list is known to be stocked. */
  function NewHeader(h: Header, kind: GrType): Header {
    h.(nextFree := None, kind := Some(kind), owners := 1, color := Black, live := true,
       buffered := false, trial := 0, fields := seq(kind.slots, _ => Null))
  }

  lemma PoolTake(hs: Headers, heads: Heads, lists: seq<seq<nat>>, log: set<(nat, nat)>, c: nat, kind: GrType)
    requires Pool(hs, heads, lists, log) && c < |heads| && heads[c].Some?
    requires BestClass(HEADER_BYTES + kind.size, c)
    ensures var b := heads[c].value;
            && b < |hs| && !hs[b].live && lists[c] != []
            && (b, hs[b].generation) !in log
            && Pool(hs[b := NewHeader(hs[b], kind)], heads[c := hs[b].nextFree],
                    lists[c := lists[c][1..]], log + {(b, hs[b].generation)})
  {
    hide Chain, BestClass, Listed;
    assert Chain(hs, heads[c], lists[c], c);
    ChainHead(hs, heads[c], lists[c], c);
    var b := heads[c].value;
    ChainDead(hs, heads[c], lists[c], c);
    ChainPop(hs, heads[c], lists[c], c);
    var hs2, heads2 := hs[b := NewHeader(hs[b], kind)], heads[c := hs[b].nextFree];
    var lists2 := lists[c := lists[c][1..]];
    forall k | 0 <= k < |lists2| ensures Chain(hs2, heads2[k], lists2[k], k) {
      var l := lists[k];
      assert Chain(hs, heads[k], l, k);
      ChainDead(hs, heads[k], l, k);
      if k == c {
        ChainFrame(hs, hs2, heads2[c], lists2[c], c);
      } else {
        ChainFrame(hs, hs2, heads[k], l, k);
      }
    }
    forall x | 0 <= x < |hs2| ensures BlockOk(hs2[x]) {
      assert BlockOk(hs[x]);
    }
    ListedPop(hs, hs2, lists, c);
  }

  /** One block of a chunk carved by `stock_free_list`. */
  function StockedHeader(c: nat, next: Option<nat>): Header {
    Header(1, None, 0, Black, false, false, c, 0, next, [])
  }

  lemma PoolStock(hs: Headers, heads: Heads, lists: seq<seq<nat>>, log: set<(nat, nat)>, c: nat)
    requires Pool(hs, heads, lists, log) && MIN_CLASS <= c <= MAX_CLASS
    ensures Pool(hs + [StockedHeader(c, heads[c])], heads[c := Some(|hs|)],
                 lists[c := [|hs|] + lists[c]], log)
  {
    hide BestClass, Listed, Chain;
    var b := |hs|;
    var hs2, heads2 := hs + [StockedHeader(c, heads[c])], heads[c := Some(b)];
    var lists2 := lists[c := [b] + lists[c]];
    forall k | 0 <= k < |lists2| ensures Chain(hs2, heads2[k], lists2[k], k) {
      var l := lists[k];
      assert Chain(hs, heads[k], l, k);
      ChainDead(hs, heads[k], l, k);
      ChainFrame(hs, hs2, heads[k], l, k);
      if k == c {
        ChainPush(hs2, heads[c], l, c, b);
      }
    }
    forall x | 0 <= x < |hs2| ensures BlockOk(hs2[x]) {
      if x < b { assert BlockOk(hs[x]); }
    }
    ListedPush(hs, hs2, lists, b);
  }

  /** A dead block is on one free list only. */
  lemma OnOneFreeList(hs: Headers, heads: Heads, lists: seq<seq<nat>>, log: set<(nat, nat)>, b: nat, c: nat)
    requires Pool(hs, heads, lists, log) && b < |hs| && c < |lists|
    ensures b in lists[c] <==> !hs[b].live && hs[b].classIndex == c
    ensures multiset(lists[c])[b] == if !hs[b].live && hs[b].classIndex == c then 1 else 0
  {
    assert Chain(hs, heads[c], lists[c], c);
    DistinctCount(lists[c], b);
  }

  lemma {:induction false} DistinctCount(list: seq<nat>, b: nat)
    requires forall i, j :: 0 <= i < j < |list| ==> list[i] != list[j]
    ensures multiset(list)[b] == if b in list then 1 else 0
  {
    if list != [] {
      var rest := list[1..];
      assert list == [list[0]] + rest;
      DistinctCount(rest, b);
    }
  }
}
