/** Every loop of an accepted program settles by its second pass, so the checker's cutoff on the
    number of passes (src/check/moves.rs:410, 451, 1136-1138) never decides a result.
 */
module MoveConverge {
  import opened MoveCheck
  import opened MoveKernel
  import opened MoveShape
  import opened MoveTree
  import opened MoveTypes
  import opened Wrappers

  // ------------------------------------------------------------------ algebra of repeated trips

  lemma {:induction false} MeetFromOk(k: Kernel, ks: seq<Kernel>)
    requires KernelOk(k) && forall i :: 0 <= i < |ks| ==> KernelOk(ks[i])
    ensures KernelOk(MeetFrom(k, ks))
    decreases ks
  {
    if ks != [] {
      KernelLaws(k, ks[0], Initialized(0));
      MeetFromOk(Meet(k, ks[0]), ks[1..]);
    }
  }

  lemma {:induction false} MeetFromThen(a: Kernel, k: Kernel, ks: seq<Kernel>, x: Transition)
    requires KernelOk(a) && KernelOk(k) && forall i :: 0 <= i < |ks| ==> KernelOk(ks[i])
    ensures Apply(MeetFrom(Then(a, k), ThenEach(a, ks)), x) == Apply(MeetFrom(k, ks), Apply(a, x))
    decreases ks
  {
    KernelLaws(a, k, x);
    if ks != [] {
      var y := Apply(a, x);
      KernelLaws(a, ks[0], x);
      KernelLaws(k, ks[0], y);
      KernelLaws(a, Meet(k, ks[0]), x);
      KernelLaws(Then(a, k), Then(a, ks[0]), x);
      assert ThenEach(a, ks)[1..] == ThenEach(a, ks[1..]);
      MeetFromThen(a, Meet(k, ks[0]), ks[1..], x);
      MeetFromSame(Meet(Then(a, k), Then(a, ks[0])), Then(a, Meet(k, ks[0])), ThenEach(a, ks[1..]), x);
    }
  }

  /** The value of a meet depends on the values of its parts only. */
  lemma {:induction false} MeetFromSame(k: Kernel, k2: Kernel, ks: seq<Kernel>, x: Transition)
    requires KernelOk(k) && KernelOk(k2) && forall i :: 0 <= i < |ks| ==> KernelOk(ks[i])
    requires Apply(k, x) == Apply(k2, x)
    ensures Apply(MeetFrom(k, ks), x) == Apply(MeetFrom(k2, ks), x)
    decreases ks
  {
    if ks != [] {
      KernelLaws(k, ks[0], x);
      KernelLaws(k2, ks[0], x);
      MeetFromSame(Meet(k, ks[0]), Meet(k2, ks[0]), ks[1..], x);
    }
  }

  lemma {:induction false} MeetFromPlus(k: Kernel, ks: seq<Kernel>, more: seq<Kernel>)
    ensures MeetFrom(k, ks + more) == MeetFrom(MeetFrom(k, ks), more)
    decreases ks
  {
    if ks == [] {
      assert ks + more == more;
    } else {
      assert (ks + more)[1..] == ks[1..] + more;
      MeetFromPlus(Meet(k, ks[0]), ks[1..], more);
    }
  }

  /** A meet is below each of its parts. */
  lemma {:induction false} MeetFromBelow(k: Kernel, ks: seq<Kernel>, x: Transition, y: Transition)
    requires KernelOk(k) && forall i :: 0 <= i < |ks| ==> KernelOk(ks[i])
    requires JoinTransition(Apply(k, x), y) == Apply(k, x) || exists i :: 0 <= i < |ks| && Apply(ks[i], x) == y
    ensures JoinTransition(Apply(MeetFrom(k, ks), x), y) == Apply(MeetFrom(k, ks), x)
    decreases ks
  {
    if ks != [] {
      KernelLaws(k, ks[0], x);
      JoinTransitionLaws(Apply(k, x), Apply(ks[0], x), y);
      JoinTransitionLaws(Apply(ks[0], x), Apply(k, x), y);
      if i :| 0 <= i < |ks| && Apply(ks[i], x) == y && i > 0 {
        assert ks[1..][i - 1] == ks[i];
      }
      MeetFromBelow(Meet(k, ks[0]), ks[1..], x, y);
    }
  }

  /** Meeting again with values already met changes nothing. */
  lemma {:induction false} MeetFromAbsorbs(m: Kernel, ks: seq<Kernel>, x: Transition)
    requires KernelOk(m) && forall i :: 0 <= i < |ks| ==> KernelOk(ks[i])
    requires forall i :: 0 <= i < |ks| ==> JoinTransition(Apply(m, x), Apply(ks[i], x)) == Apply(m, x)
    ensures Apply(MeetFrom(m, ks), x) == Apply(m, x)
    decreases ks
  {
    if ks != [] {
      KernelLaws(m, ks[0], x);
      assert forall i :: 0 <= i < |ks[1..]| ==> ks[1..][i] == ks[i + 1];
      MeetFromAbsorbs(Meet(m, ks[0]), ks[1..], x);
    }
  }

  ghost predicate KFlowOk(k: KFlow) {
    && (k.normal.Some? ==> KernelOk(k.normal.value))
    && (forall i :: 0 <= i < |k.breaks| ==> KernelOk(k.breaks[i]))
    && (forall i :: 0 <= i < |k.continues| ==> KernelOk(k.continues[i]))
  }

  lemma FlowActsOk(f: Flow, k: KFlow, x: Transition, root: Root, p: Path)
    requires FlowActs(f, k, x, root, p)
    ensures KFlowOk(k)
  {
    forall i | 0 <= i < |k.breaks| ensures KernelOk(k.breaks[i]) {
      assert Acts(f.breaks[i], k.breaks[i], x, root, p);
    }
    forall i | 0 <= i < |k.continues| ensures KernelOk(k.continues[i]) {
      assert Acts(f.continues[i], k.continues[i], x, root, p);
    }
  }

  lemma KBackMeans(k: KFlow, ks: seq<Kernel>)
    requires ks == KChain(k.normal, None) + k.continues
    ensures KBack(k) == if ks == [] then Same else Meet(Same, MeetFrom(ks[0], ks[1..]))
  {
    if ks != [] {
      var f := MeetFrom(ks[0], ks[1..]);
      var one: seq<Kernel> := [f];
      assert KChain(Some(f), None) == one;
      assert one[1..] == [] && MeetFrom(Same, one) == MeetFrom(Meet(Same, f), []);
    }
  }

  /** Going around twice is going around once. */
  lemma TripTwice(k: KFlow, x: Transition)
    requires KFlowOk(k)
    ensures KernelOk(KBack(k))
    ensures Apply(KBack(After(KBack(k), k)), x) == Apply(KBack(k), x)
  {
    var ks := KChain(k.normal, None) + k.continues;
    if ks == [] {
      assert KChain(After(KBack(k), k).normal, None) + After(KBack(k), k).continues == [];
    } else {
      var f := MeetFrom(ks[0], ks[1..]);
      MeetFromOk(ks[0], ks[1..]);
      var a := KBack(k);
      KBackMeans(k, ks);
      KernelLaws(Same, f, x);
      var ks2 := KChain(After(a, k).normal, None) + After(a, k).continues;
      assert ks2 == ThenEach(a, ks);
      assert ks2[0] == Then(a, ks[0]) && ks2[1..] == ThenEach(a, ks[1..]);
      var f2 := MeetFrom(ks2[0], ks2[1..]);
      MeetFromThen(a, ks[0], ks[1..], x);
      forall i | 0 <= i < |ks2| ensures KernelOk(ks2[i]) {
        KernelLaws(a, ks[i], x);
      }
      MeetFromOk(ks2[0], ks2[1..]);
      KBackMeans(After(a, k), ks2);
      KernelLaws(Same, f2, x);
      SecondTrip(f, x);
    }
  }

  // ------------------------------------------------------------------ the second pass finds nothing new

  /** At every location of a declared root the flow acts from the given state. */
  ghost predicate ActsFrom(f: Flow, kf: (Root, Path) -> KFlow, from: State, types: Types) {
    forall r, q :: r in types ==> ActsAt(f, kf, from, r, q)
  }

  ghost predicate ActsAt(f: Flow, kf: (Root, Path) -> KFlow, from: State, r: Root, q: Path) {
    r in from && FlowActs(f, kf(r, q), Lookup(from[r], q), r, q)
  }

  lemma SecondPass(entry: State, f1: Flow, f2: Flow, kf: (Root, Path) -> KFlow, types: Types)
    requires StateOk(entry, types) && FlowOk(f1, types) && FlowOk(f2, types)
    requires ActsFrom(f1, kf, entry, types) && ActsFrom(f2, kf, NextHead(entry, f1), types)
    ensures NextHead(entry, f2) == NextHead(entry, f1)
  {
    var next1, next2 := NextHead(entry, f1), NextHead(entry, f2);
    NextHeadOk(entry, f1, types);
    NextHeadOk(entry, f2, types);
    forall r | r in types ensures next1[r] == next2[r] {
      forall q ensures Lookup(next1[r], q) == Lookup(next2[r], q) {
        SecondPassAt(entry, f1, f2, kf, r, q);
      }
      BackEdge(entry, f1, r);
      BackEdge(entry, f2, r);
      assert ActsAt(f1, kf, entry, r, []) && ActsAt(f2, kf, next1, r, []);
      if Pruned(next1[r]) && Pruned(next2[r]) {
        PrunedUnique(next1[r], next2[r]);
      }
    }
  }

  lemma SecondPassAt(entry: State, f1: Flow, f2: Flow, kf: (Root, Path) -> KFlow, r: Root, q: Path)
    requires ActsAt(f1, kf, entry, r, q) && ActsAt(f2, kf, NextHead(entry, f1), r, q)
    ensures r in NextHead(entry, f2)
    ensures Lookup(NextHead(entry, f2)[r], q) == Lookup(NextHead(entry, f1)[r], q)
  {
    var x, k := Lookup(entry[r], q), kf(r, q);
    FlowActsOk(f1, k, x, r, q);
    NextHeadActs(entry, f1, k, x, r, q);
    FlowActsAfter(NextHead(entry, f1), f2, KBack(k), k, x, r, q);
    NextHeadActs(entry, f2, After(KBack(k), k), x, r, q);
    TripTwice(k, x);
  }

  /** With a way back the next head is a join, hence pruned; without one it is the entry. */
  lemma BackEdge(entry: State, f: Flow, r: Root)
    requires r in entry && r in NextHead(entry, f)
    requires f.normal.Some? ==> r in f.normal.value
    requires forall s :: s in f.continues ==> r in s
    ensures if f.normal.None? && f.continues == [] then NextHead(entry, f) == entry else Pruned(NextHead(entry, f)[r])
  {
    var states := Chain(f.normal, None) + f.continues;
    if states != [] {
      var back := JoinFrom(states[0], states[1..]);
      var one: seq<State> := [back];
      assert JoinAll(states) == Some(back) && Chain(Some(back), None) == one;
      assert one[1..] == [] && JoinFrom(entry, one) == JoinFrom(JoinTwo(entry, back), []);
      JoinKeepsRoot(states[0], states[1..], r);
      JoinPruned(entry[r], back[r]);
    }
  }

  lemma {:induction false} JoinKeepsRoot(joined: State, states: seq<State>, r: Root)
    requires r in joined
    ensures r in JoinFrom(joined, states)
    decreases states
  {
    if states != [] {
      JoinKeepsRoot(JoinTwo(joined, states[0]), states[1..], r);
    }
  }

  /** What leaves a loop, after one pass or two, is what its kernel says. */
  lemma LoopExit(entry: State, v1: State, f1: Flow, v2: State, f2: Flow, o1: State, o2: State,
                 inward: Kernel, outward: Kernel, body: KFlow, r: Root, q: Path)
    requires r in entry
    requires Acts(v1, inward, Lookup(entry[r], q), r, q) && FlowActs(f1, body, Lookup(v1[r], q), r, q)
    requires Acts(o1, outward, Lookup(entry[r], q), r, q)
    requires var next := NextHead(entry, f1);
             r in next ==>
               && Acts(v2, inward, Lookup(next[r], q), r, q) && FlowActs(f2, body, Lookup(v2[r], q), r, q)
               && Acts(o2, outward, Lookup(next[r], q), r, q)
    ensures Acts(JoinFrom(o2, f1.breaks + f2.breaks), KLoop(inward, outward, body), Lookup(entry[r], q), r, q)
    ensures NextHead(entry, f1) == entry ==>
              Acts(JoinFrom(o1, f1.breaks), KLoop(inward, outward, body), Lookup(entry[r], q), r, q)
  {
    var x, k, next := Lookup(entry[r], q), After(inward, body), NextHead(entry, f1);
    FlowActsAfter(v1, f1, inward, body, x, r, q);
    FlowActsOk(f1, k, x, r, q);
    NextHeadActs(entry, f1, k, x, r, q);
    TripTwice(k, x);
    var a := KBack(k);
    var y := Lookup(next[r], q);
    FlowActsAfter(v2, f2, inward, body, y, r, q);
    FlowActsAfter(next, f2, a, k, x, r, q);
    ActsThen(next, o2, a, outward, x, r, q);
    JoinFromActs(o2, f1.breaks + f2.breaks, Then(a, outward), k.breaks + ThenEach(a, k.breaks), x, r, q);
    if next == entry {
      JoinFromActs(o1, f1.breaks, outward, k.breaks, x, r, q);
      StillExit(a, outward, k.breaks, x);
    }
  }

  /** If the trip around the loop leaves `x` as it is, the second helping of breaks adds nothing. */
  lemma StillExit(a: Kernel, outward: Kernel, breaks: seq<Kernel>, x: Transition)
    requires KernelOk(a) && KernelOk(outward) && Apply(a, x) == x
    requires forall i :: 0 <= i < |breaks| ==> KernelOk(breaks[i])
    ensures Apply(MeetFrom(Then(a, outward), breaks + ThenEach(a, breaks)), x) == Apply(MeetFrom(outward, breaks), x)
  {
    var again := ThenEach(a, breaks);
    KernelLaws(a, outward, x);
    forall i | 0 <= i < |breaks| ensures KernelOk(again[i]) && Apply(again[i], x) == Apply(breaks[i], x) {
      KernelLaws(a, breaks[i], x);
    }
    MeetFromSame(Then(a, outward), outward, breaks, x);
    MeetFromPlus(Then(a, outward), breaks, again);
    var m := MeetFrom(Then(a, outward), breaks);
    MeetFromOk(Then(a, outward), breaks);
    forall i | 0 <= i < |again| ensures JoinTransition(Apply(m, x), Apply(again[i], x)) == Apply(m, x) {
      MeetFromBelow(Then(a, outward), breaks, x, Apply(again[i], x));
    }
    MeetFromAbsorbs(m, again, x);
  }

  // ------------------------------------------------------------------ statements

  lemma {:induction false} StmtActs(s: Stmt, st: State, types: Types, root: Root, p: Path)
    requires StateOk(st, types) && StmtOk(s, types) && root in types
    requires CheckStmt(s, st, types).reports == []
    ensures FlowActs(CheckStmt(s, st, types).flow, KStmt(s, root, p), Lookup(st[root], p), root, p)
    decreases s, 1, 0
  {
    var x := Lookup(st[root], p);
    match s
    case Let(bindings, value, span) =>
      VisitActs(value, st, types, true, root, p);
      var v := Visit(value, st, types, true).state;
      BindAllActs(bindings, span, v, root, p);
      ActsThen(v, BindAll(bindings, span, v), KExpr(value, true, root, p), KBind(bindings, span, root, p), x, root, p);
    case Assign(place, inputs, compound, value, span) => AssignActs(s, st, types, root, p);
    case Eval(value) => VisitActs(value, st, types, true, root, p);
    case Return(result) =>
    case If(condition, a, b) => IfActs(s, st, types, root, p);
    case While(condition, body) => WhileActs(condition, body, st, Bound(types) + 1, types, root, p);
    case For(binding, iterable, body, span) =>
      VisitActs(iterable, st, types, true, root, p);
      VisitOk(iterable, st, types, true);
      var v := Visit(iterable, st, types, true).state;
      ForActs(binding, span, body, v, Bound(types) + 1, types, root, p);
      ActsThen(v, CheckStmt(s, st, types).flow.normal.value, KExpr(iterable, true, root, p),
               KLoop(KSet(Place(binding, []), Initialized(span), root, p), Same, KBlock(body, root, p)), x, root, p);
    case Match(scrutinee, arms) => MatchActs(s, st, types, root, p);
    case Block(body) => BlockActs(body, st, types, root, p);
    case _ =>
  }

  lemma AssignActs(s: Stmt, st: State, types: Types, root: Root, p: Path)
    requires s.Assign? && root in st && CheckStmt(s, st, types).reports == []
    ensures FlowActs(CheckStmt(s, st, types).flow, KStmt(s, root, p), Lookup(st[root], p), root, p)
  {
    var x := Lookup(st[root], p);
    VisitAllActs(s.inputs, st, types, root, p);
    var i := VisitAll(s.inputs, st, types).state;
    VisitActs(s.value, i, types, true, root, p);
    var v := Visit(s.value, i, types, true).state;
    ActsThen(i, v, KAll(s.inputs, root, p), KExpr(s.value, true, root, p), x, root, p);
    SetActs(v, s.place, Initialized(s.span), root, p);
    ActsThen(v, SetPlace(v, s.place, Initialized(s.span)), Then(KAll(s.inputs, root, p), KExpr(s.value, true, root, p)),
             KSet(s.place, Initialized(s.span), root, p), x, root, p);
  }

  lemma {:induction false} IfActs(s: Stmt, st: State, types: Types, root: Root, p: Path)
    requires s.If? && StateOk(st, types) && StmtOk(s, types) && root in types
    requires CheckStmt(s, st, types).reports == []
    ensures FlowActs(CheckStmt(s, st, types).flow, KStmt(s, root, p), Lookup(st[root], p), root, p)
    decreases s, 0, 0
  {
    hide Acts;
    var If(condition, a, b) := s;
    VisitActs(condition, st, types, true, root, p);
    VisitOk(condition, st, types, true);
    var v := Visit(condition, st, types, true).state;
    var fa, fb := CheckBlock(a, v, types).flow, CheckBlock(b, v, types).flow;
    var ka, kb := KBlock(a, root, p), KBlock(b, root, p);
    BlockActs(a, v, types, root, p);
    BlockActs(b, v, types, root, p);
    JoinAllActs(Chain(fa.normal, fb.normal), KChain(ka.normal, kb.normal), Lookup(v[root], p), root, p);
    FlowActsAfter(v, CheckStmt(s, st, types).flow, KExpr(condition, true, root, p),
                  KFlow(MeetAll(KChain(ka.normal, kb.normal)), ka.breaks + kb.breaks, ka.continues + kb.continues),
                  Lookup(st[root], p), root, p);
  }

  lemma {:induction false} MatchActs(s: Stmt, st: State, types: Types, root: Root, p: Path)
    requires s.Match? && StateOk(st, types) && StmtOk(s, types) && root in types
    requires CheckStmt(s, st, types).reports == []
    ensures FlowActs(CheckStmt(s, st, types).flow, KStmt(s, root, p), Lookup(st[root], p), root, p)
    decreases s, 0, 0
  {
    hide Acts;
    var Match(scrutinee, arms) := s;
    VisitActs(scrutinee, st, types, true, root, p);
    VisitOk(scrutinee, st, types, true);
    var v := Visit(scrutinee, st, types, true).state;
    ArmsAct(arms, v, types, root, p);
    var (normals, breaks, continues) := KArms(arms, root, p);
    JoinAllActs(CheckArms(arms, v, types).normals, normals, Lookup(v[root], p), root, p);
    FlowActsAfter(v, CheckStmt(s, st, types).flow, KExpr(scrutinee, true, root, p),
                  KFlow(MeetAll(normals), breaks, continues), Lookup(st[root], p), root, p);
  }

  lemma {:induction false} BlockActs(stmts: seq<Stmt>, st: State, types: Types, root: Root, p: Path)
    requires StateOk(st, types) && BlockOk(stmts, types) && root in types
    requires CheckBlock(stmts, st, types).reports == []
    ensures FlowActs(CheckBlock(stmts, st, types).flow, KBlock(stmts, root, p), Lookup(st[root], p), root, p)
    decreases stmts, 0, 0
  {
    if stmts != [] {
      var first := CheckStmt(stmts[0], st, types);
      StmtActs(stmts[0], st, types, root, p);
      CheckStmtOk(stmts[0], st, types);
      if first.flow.normal.Some? {
        var mid := first.flow.normal.value;
        BlockActs(stmts[1..], mid, types, root, p);
        FlowActsAfter(mid, CheckBlock(stmts[1..], mid, types).flow, KStmt(stmts[0], root, p).normal.value,
                      KBlock(stmts[1..], root, p), Lookup(st[root], p), root, p);
      }
    }
  }

  /** Up to its body an arm acts by its pattern and then its guard. */
  lemma EnteredActs(arm: Arm, st: State, types: Types, root: Root, p: Path)
    requires StateOk(st, types) && PatternOk(arm.pattern, types) && ExprsOk(arm.guard, types) && root in types
    requires var v := ApplyPattern(arm.pattern, st, types);
             v.reports == [] && VisitAll(arm.guard, v.state, types).reports == []
    ensures var g := VisitAll(arm.guard, ApplyPattern(arm.pattern, st, types).state, types);
            && StateOk(g.state, types)
            && Acts(g.state, Then(KPattern(arm.pattern, root, p), KAll(arm.guard, root, p)), Lookup(st[root], p),
                    root, p)
  {
    hide ApplyPattern, KPattern, VisitAll, KAll, Lookup;
    var v := ApplyPattern(arm.pattern, st, types).state;
    ApplyPatternActs(arm.pattern, st, types, root, p);
    ApplyPatternOk(arm.pattern, st, types);
    VisitAllActs(arm.guard, v, types, root, p);
    VisitAllOk(arm.guard, v, types);
    ActsThen(v, VisitAll(arm.guard, v, types).state, KPattern(arm.pattern, root, p), KAll(arm.guard, root, p),
             Lookup(st[root], p), root, p);
  }

  lemma {:induction false} ArmsAct(arms: seq<Arm>, st: State, types: Types, root: Root, p: Path)
    requires StateOk(st, types) && ArmsOk(arms, types) && root in types
    requires CheckArms(arms, st, types).reports == []
    ensures var a := CheckArms(arms, st, types);
            var (normals, breaks, continues) := KArms(arms, root, p);
            var x := Lookup(st[root], p);
            ActEach(a.normals, normals, x, root, p) && ActEach(a.breaks, breaks, x, root, p)
            && ActEach(a.continues, continues, x, root, p)
    decreases arms, 0, 0
  {
    hide CheckBlock, KBlock, ApplyPattern, KPattern, VisitAll, KAll, Lookup, BlockOk, Acts, ActEach, FlowActs;
    if arms != [] {
      var x := Lookup(st[root], p);
      var entered := Then(KPattern(arms[0].pattern, root, p), KAll(arms[0].guard, root, p));
      EnteredActs(arms[0], st, types, root, p);
      var g := VisitAll(arms[0].guard, ApplyPattern(arms[0].pattern, st, types).state, types);
      BlockActs(arms[0].body, g.state, types, root, p);
      FlowActsAfter(g.state, CheckBlock(arms[0].body, g.state, types).flow, entered, KBlock(arms[0].body, root, p),
                    x, root, p);
      ArmsAct(arms[1..], st, types, root, p);
      var rest := CheckArms(arms[1..], st, types);
      var (ks, kb, kc) := KArms(arms[1..], root, p);
      EachJoined(CheckBlock(arms[0].body, g.state, types).flow, After(entered, KBlock(arms[0].body, root, p)),
                 rest.normals, rest.breaks, rest.continues, ks, kb, kc, Lookup(st[root], p), root, p);
    } else {
      NothingActs(Lookup(st[root], p), root, p);
    }
  }

  // ------------------------------------------------------------------ loops

  /** Loop convergence: an accepted `while` reaches a fixed head by its second pass. */
  lemma {:induction false} WhileConverges(condition: Expr, body: seq<Stmt>, entry: State, n: nat, types: Types)
    requires StateOk(entry, types) && ExprOk(condition, types) && BlockOk(body, types) && n >= 2
    requires WhilePasses(condition, body, entry, entry, [], n, types).reports == []
    ensures WhilePasses(condition, body, entry, entry, [], n, types).converged
    ensures WhilePasses(condition, body, entry, entry, [], n, types).passes <= 2
    ensures WhilePasses(condition, body, entry, entry, [], n, types)
         == WhilePasses(condition, body, entry, entry, [], 2, types)
    ensures var v1 := Visit(condition, entry, types, true);
            var b1 := CheckBlock(body, v1.state, types);
            var next := NextHead(entry, b1.flow);
            var v2 := Visit(condition, next, types, true);
            var b2 := CheckBlock(body, v2.state, types);
            && v1.reports == b1.reports == v2.reports == b2.reports == []
            && NextHead(entry, b2.flow) == next
            && WhilePasses(condition, body, entry, entry, [], n, types).exit ==
                 if next == entry then JoinFrom(v1.state, b1.flow.breaks)
                 else JoinFrom(v2.state, b1.flow.breaks + b2.flow.breaks)
    decreases body, 2, 0
  {
    hide Visit, CheckBlock, NextHead, JoinFrom, WhilePasses, StateOk, ExprOk, BlockOk;
    var v1 := Visit(condition, entry, types, true).state;
    var b1 := CheckBlock(body, v1, types);
    var next := NextHead(entry, b1.flow);
    WhilePass(condition, body, entry, entry, [], n, types);
    WhilePass(condition, body, entry, entry, [], 2, types);
    assert [] + b1.flow.breaks == b1.flow.breaks;
    if next != entry {
      var v2 := Visit(condition, next, types, true).state;
      var b2 := CheckBlock(body, v2, types);
      WhilePass(condition, body, entry, next, b1.flow.breaks, n - 1, types);
      WhilePass(condition, body, entry, next, b1.flow.breaks, 1, types);
      WhileSettles(condition, body, entry, types);
    }
  }

  /** One pass of `check_while`. */
  lemma WhilePass(condition: Expr, body: seq<Stmt>, entry: State, head: State, breaks: seq<State>, n: nat, types: Types)
    requires n > 0
    ensures var v := Visit(condition, head, types, true);
            var b := CheckBlock(body, v.state, types);
            var (next, more) := (NextHead(entry, b.flow), breaks + b.flow.breaks);
            var rest := WhilePasses(condition, body, entry, next, more, n - 1, types);
            WhilePasses(condition, body, entry, head, breaks, n, types) ==
              if next == head then Looped(JoinFrom(v.state, more), v.reports + b.reports, true, 1)
              else Looped(rest.exit, v.reports + b.reports + rest.reports, rest.converged, rest.passes + 1)
  {
    hide Visit, CheckBlock, NextHead, JoinFrom;
  }

  /** The second pass leads back to where it started. */
  lemma {:induction false} WhileSettles(condition: Expr, body: seq<Stmt>, entry: State, types: Types)
    requires StateOk(entry, types) && ExprOk(condition, types) && BlockOk(body, types)
    requires Visit(condition, entry, types, true).reports == []
    requires var b1 := CheckBlock(body, Visit(condition, entry, types, true).state, types);
             var v2 := Visit(condition, NextHead(entry, b1.flow), types, true);
             b1.reports == [] && v2.reports == [] && CheckBlock(body, v2.state, types).reports == []
    ensures var next := NextHead(entry, CheckBlock(body, Visit(condition, entry, types, true).state, types).flow);
            NextHead(entry, CheckBlock(body, Visit(condition, next, types, true).state, types).flow) == next
    decreases body, 1, 1
  {
    hide Visit, CheckBlock, NextHead, ExprOk, BlockOk, FlowOk;
    var v1 := Visit(condition, entry, types, true).state;
    VisitOk(condition, entry, types, true);
    var b1 := CheckBlock(body, v1, types).flow;
    CheckBlockOk(body, v1, types);
    var next := NextHead(entry, b1);
    NextHeadOk(entry, b1, types);
    var v2 := Visit(condition, next, types, true).state;
    VisitOk(condition, next, types, true);
    var b2 := CheckBlock(body, v2, types).flow;
    CheckBlockOk(body, v2, types);
    var kf := (r: Root, q: Path) => After(KExpr(condition, true, r, q), KBlock(body, r, q));
    forall r, q | r in types ensures ActsAt(b1, kf, entry, r, q) && ActsAt(b2, kf, next, r, q) {
      WhileTrip(condition, body, entry, types, r, q);
      WhileTrip(condition, body, next, types, r, q);
    }
    SecondPass(entry, b1, b2, kf, types);
  }

  lemma {:induction false} WhileTrip(condition: Expr, body: seq<Stmt>, head: State, types: Types, root: Root, p: Path)
    requires StateOk(head, types) && ExprOk(condition, types) && BlockOk(body, types) && root in types
    requires Visit(condition, head, types, true).reports == []
    requires CheckBlock(body, Visit(condition, head, types, true).state, types).reports == []
    ensures var v := Visit(condition, head, types, true).state;
            var f := CheckBlock(body, v, types).flow;
            && Acts(v, KExpr(condition, true, root, p), Lookup(head[root], p), root, p)
            && FlowActs(f, KBlock(body, root, p), Lookup(v[root], p), root, p)
            && FlowActs(f, After(KExpr(condition, true, root, p), KBlock(body, root, p)), Lookup(head[root], p), root,
                        p)
    decreases body, 1, 0
  {
    var v := Visit(condition, head, types, true).state;
    VisitOk(condition, head, types, true);
    VisitActs(condition, head, types, true, root, p);
    BlockActs(body, v, types, root, p);
    FlowActsAfter(v, CheckBlock(body, v, types).flow, KExpr(condition, true, root, p), KBlock(body, root, p),
                  Lookup(head[root], p), root, p);
  }

  lemma {:induction false} WhileActs(condition: Expr, body: seq<Stmt>, entry: State, n: nat, types: Types,
                                     root: Root, p: Path)
    requires StateOk(entry, types) && ExprOk(condition, types) && BlockOk(body, types) && n >= 2 && root in types
    requires WhilePasses(condition, body, entry, entry, [], n, types).reports == []
    ensures var k := KExpr(condition, true, root, p);
            Acts(WhilePasses(condition, body, entry, entry, [], n, types).exit, KLoop(k, k, KBlock(body, root, p)),
                 Lookup(entry[root], p), root, p)
    decreases body, 3, 0
  {
    hide WhilePasses, Visit, CheckBlock, Acts, FlowActs, NextHead, KLoop;
    WhileConverges(condition, body, entry, n, types);
    var k := KExpr(condition, true, root, p);
    var v1 := Visit(condition, entry, types, true).state;
    VisitOk(condition, entry, types, true);
    var b1 := CheckBlock(body, v1, types).flow;
    CheckBlockOk(body, v1, types);
    var next := NextHead(entry, b1);
    NextHeadOk(entry, b1, types);
    WhileTrip(condition, body, entry, types, root, p);
    var v2 := Visit(condition, next, types, true).state;
    var b2 := CheckBlock(body, v2, types).flow;
    WhileTrip(condition, body, next, types, root, p);
    LoopExit(entry, v1, b1, v2, b2, v1, v2, k, k, KBlock(body, root, p), root, p);
  }

  /** Loop convergence for `for`. */
  lemma {:induction false} ForConverges(binding: Root, span: nat, body: seq<Stmt>, entry: State, n: nat, types: Types)
    requires StateOk(entry, types) && binding in types && BlockOk(body, types) && n >= 2
    requires ForPasses(binding, span, body, entry, entry, [], n, types).reports == []
    ensures ForPasses(binding, span, body, entry, entry, [], n, types).converged
    ensures ForPasses(binding, span, body, entry, entry, [], n, types).passes <= 2
    ensures ForPasses(binding, span, body, entry, entry, [], n, types)
         == ForPasses(binding, span, body, entry, entry, [], 2, types)
    ensures var b1 := CheckBlock(body, SetPlace(entry, Place(binding, []), Initialized(span)), types);
            var next := NextHead(entry, b1.flow);
            var b2 := CheckBlock(body, SetPlace(next, Place(binding, []), Initialized(span)), types);
            && b1.reports == b2.reports == []
            && NextHead(entry, b2.flow) == next
            && ForPasses(binding, span, body, entry, entry, [], n, types).exit ==
                 if next == entry then JoinFrom(entry, b1.flow.breaks)
                 else JoinFrom(next, b1.flow.breaks + b2.flow.breaks)
    decreases body, 2, 0
  {
    hide CheckBlock, NextHead, JoinFrom, ForPasses, SetPlace, StateOk, BlockOk;
    var b1 := CheckBlock(body, SetPlace(entry, Place(binding, []), Initialized(span)), types);
    var next := NextHead(entry, b1.flow);
    ForPass(binding, span, body, entry, entry, [], n, types);
    ForPass(binding, span, body, entry, entry, [], 2, types);
    assert [] + b1.flow.breaks == b1.flow.breaks;
    if next != entry {
      ForPass(binding, span, body, entry, next, b1.flow.breaks, n - 1, types);
      ForPass(binding, span, body, entry, next, b1.flow.breaks, 1, types);
      ForSettles(binding, span, body, entry, types);
    }
  }

  /** One pass of `check_for`. */
  lemma ForPass(binding: Root, span: nat, body: seq<Stmt>, entry: State, head: State, breaks: seq<State>,
                n: nat, types: Types)
    requires n > 0
    ensures var b := CheckBlock(body, SetPlace(head, Place(binding, []), Initialized(span)), types);
            var (next, more) := (NextHead(entry, b.flow), breaks + b.flow.breaks);
            var rest := ForPasses(binding, span, body, entry, next, more, n - 1, types);
            ForPasses(binding, span, body, entry, head, breaks, n, types) ==
              if next == head then Looped(JoinFrom(head, more), b.reports, true, 1)
              else Looped(rest.exit, b.reports + rest.reports, rest.converged, rest.passes + 1)
  {
    hide SetPlace, CheckBlock, NextHead, JoinFrom;
  }

  lemma {:induction false} ForSettles(binding: Root, span: nat, body: seq<Stmt>, entry: State, types: Types)
    requires StateOk(entry, types) && binding in types && BlockOk(body, types)
    requires var b1 := CheckBlock(body, SetPlace(entry, Place(binding, []), Initialized(span)), types);
             var v2 := SetPlace(NextHead(entry, b1.flow), Place(binding, []), Initialized(span));
             b1.reports == [] && CheckBlock(body, v2, types).reports == []
    ensures var bound := SetPlace(entry, Place(binding, []), Initialized(span));
            var next := NextHead(entry, CheckBlock(body, bound, types).flow);
            NextHead(entry, CheckBlock(body, SetPlace(next, Place(binding, []), Initialized(span)), types).flow) == next
    decreases body, 1, 1
  {
    hide CheckBlock, NextHead, StateOk, BlockOk, FlowOk, KSet, KBlock;
    var place := Place(binding, []);
    var v1 := SetPlace(entry, place, Initialized(span));
    SetOk(entry, types, place, Initialized(span));
    var b1 := CheckBlock(body, v1, types).flow;
    CheckBlockOk(body, v1, types);
    var next := NextHead(entry, b1);
    NextHeadOk(entry, b1, types);
    var v2 := SetPlace(next, place, Initialized(span));
    SetOk(next, types, place, Initialized(span));
    var b2 := CheckBlock(body, v2, types).flow;
    CheckBlockOk(body, v2, types);
    var kf := (r: Root, q: Path) => After(KSet(place, Initialized(span), r, q), KBlock(body, r, q));
    forall r, q | r in types ensures ActsAt(b1, kf, entry, r, q) && ActsAt(b2, kf, next, r, q) {
      ForTrip(binding, span, body, entry, types, r, q);
      ForTrip(binding, span, body, next, types, r, q);
    }
    SecondPass(entry, b1, b2, kf, types);
  }

  lemma {:induction false} ForTrip(binding: Root, span: nat, body: seq<Stmt>, head: State, types: Types,
                                   root: Root, p: Path)
    requires StateOk(head, types) && binding in types && BlockOk(body, types) && root in types
    requires CheckBlock(body, SetPlace(head, Place(binding, []), Initialized(span)), types).reports == []
    ensures var v := SetPlace(head, Place(binding, []), Initialized(span));
            var f := CheckBlock(body, v, types).flow;
            var k := KSet(Place(binding, []), Initialized(span), root, p);
            && Acts(v, k, Lookup(head[root], p), root, p)
            && FlowActs(f, KBlock(body, root, p), Lookup(v[root], p), root, p)
            && FlowActs(f, After(k, KBlock(body, root, p)), Lookup(head[root], p), root, p)
    decreases body, 1, 0
  {
    var place := Place(binding, []);
    var v := SetPlace(head, place, Initialized(span));
    SetOk(head, types, place, Initialized(span));
    SetActs(head, place, Initialized(span), root, p);
    BlockActs(body, v, types, root, p);
    FlowActsAfter(v, CheckBlock(body, v, types).flow, KSet(place, Initialized(span), root, p), KBlock(body, root, p),
                  Lookup(head[root], p), root, p);
  }

  lemma {:induction false} ForActs(binding: Root, span: nat, body: seq<Stmt>, entry: State, n: nat, types: Types,
                                   root: Root, p: Path)
    requires StateOk(entry, types) && binding in types && BlockOk(body, types) && n >= 2 && root in types
    requires ForPasses(binding, span, body, entry, entry, [], n, types).reports == []
    ensures Acts(ForPasses(binding, span, body, entry, entry, [], n, types).exit,
                 KLoop(KSet(Place(binding, []), Initialized(span), root, p), Same, KBlock(body, root, p)),
                 Lookup(entry[root], p), root, p)
    decreases body, 3, 0
  {
    hide ForPasses, CheckBlock, FlowActs, NextHead, KLoop, KSet;
    ForConverges(binding, span, body, entry, n, types);
    var place := Place(binding, []);
    var k := KSet(place, Initialized(span), root, p);
    var v1 := SetPlace(entry, place, Initialized(span));
    SetOk(entry, types, place, Initialized(span));
    var b1 := CheckBlock(body, v1, types).flow;
    CheckBlockOk(body, v1, types);
    var next := NextHead(entry, b1);
    NextHeadOk(entry, b1, types);
    ForTrip(binding, span, body, entry, types, root, p);
    var v2 := SetPlace(next, place, Initialized(span));
    var b2 := CheckBlock(body, v2, types).flow;
    ForTrip(binding, span, body, next, types, root, p);
    SetOk(next, types, place, Initialized(span));
    LoopExit(entry, v1, b1, v2, b2, entry, next, k, Same, KBlock(body, root, p), root, p);
  }
}
