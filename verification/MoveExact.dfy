/** When the move checker reports something, something is wrong (src/check/moves.rs:265-931).

    Of a body without run-time indices and without statements that are never reached, what the checker
    does not believe initialised really is missing on some run that gets there.  So it accepts exactly the
    bodies that move only what may be moved and of which no run goes wrong.
 */
module MoveExact {
  import opened MoveCaptures
  import opened MoveCheck
  import opened MovePieces
  import opened MoveRun
  import opened MoveShape
  import opened MoveTree
  import opened MoveTypes
  import opened Wrappers

  // ------------------------------------------------------------------ plain bodies

  predicate NoRuntimeIndex(us: seq<Use>) {
    forall u :: u in us ==> DynamicIndex !in u.place.path
  }

  /** Control may reach the end of the statement. */
  predicate MayEnd(s: Stmt)
    decreases s
  {
    match s
    case Return(_) | Break | Continue => false
    case If(_, a, b) => BlockMayEnd(a) || BlockMayEnd(b)
    case Match(_, arms) => ArmMayEnd(arms)
    case Block(body) => BlockMayEnd(body)
    case _ => true
  }

  predicate BlockMayEnd(stmts: seq<Stmt>)
    decreases stmts
  {
    stmts == [] || (MayEnd(stmts[0]) && BlockMayEnd(stmts[1..]))
  }

  predicate ArmMayEnd(arms: seq<Arm>)
    decreases arms
  {
    arms != [] && (BlockMayEnd(arms[0].body) || ArmMayEnd(arms[1..]))
  }

  /** No write goes through a run-time index, no statement stands where control never is, and every
      choice of alternatives has one. */
  predicate StmtPlain(s: Stmt)
    decreases s
  {
    match s
    case Assign(place, _, _, _, _) => DynamicIndex !in place.path
    case If(_, a, b) => BlockPlain(a) && BlockPlain(b)
    case While(_, body) => BlockPlain(body)
    case For(_, _, body, _) => BlockPlain(body)
    case Match(_, arms) => ArmsPlain(arms)
    case Block(body) => BlockPlain(body)
    case _ => true
  }

  predicate BlockPlain(stmts: seq<Stmt>)
    decreases stmts
  {
    stmts == [] || (StmtPlain(stmts[0]) && (|stmts| > 1 ==> MayEnd(stmts[0])) && BlockPlain(stmts[1..]))
  }

  predicate ArmsPlain(arms: seq<Arm>)
    decreases arms
  {
    arms == [] || (PatternPlain(arms[0].pattern) && BlockPlain(arms[0].body) && ArmsPlain(arms[1..]))
  }

  predicate PatternPlain(steps: seq<PatternStep>)
    decreases steps
  {
    steps == [] || (StepPlain(steps[0]) && PatternPlain(steps[1..]))
  }

  predicate StepPlain(s: PatternStep)
    decreases s
  {
    s.Either? ==> s.alternatives != [] && EitherPlain(s.alternatives)
  }

  predicate EitherPlain(alternatives: seq<Alternative>)
    decreases alternatives
  {
    alternatives == [] || (PatternPlain(alternatives[0].steps) && EitherPlain(alternatives[1..]))
  }

  predicate Plain(body: seq<Stmt>) {
    BlockPlain(body) && NoRuntimeIndex(BlockUses(body))
  }

  /** Uses the checker has no objection to but for the state they are found in. */
  predicate Fine(us: seq<Use>, types: Types) {
    NoRuntimeIndex(us) && MovesAllowed(us, types)
  }

  lemma FineBoth(us: seq<Use>, vs: seq<Use>, types: Types)
    requires Fine(us + vs, types)
    ensures Fine(us, types) && Fine(vs, types)
  {
    AllowedBoth(us, vs, types);
    forall u | u in us ensures u in us + vs {
    }
    forall u | u in vs ensures u in us + vs {
    }
  }

  /** A statement control may reach the end of leaves a state behind. */
  lemma {:induction false} StmtEnds(s: Stmt, st: State, types: Types)
    requires MayEnd(s)
    ensures CheckStmt(s, st, types).flow.normal.Some?
    decreases s
  {
    hide Visit, VisitAll, WhilePasses, ForPasses, JoinFrom;
    match s
    case If(condition, a, b) =>
      var v := Visit(condition, st, types, true).state;
      if BlockMayEnd(a) {
        BlockEnds(a, v, types);
      } else {
        BlockEnds(b, v, types);
      }
    case Match(scrutinee, arms) => ArmsEnd(arms, Visit(scrutinee, st, types, true).state, types);
    case Block(body) => BlockEnds(body, st, types);
    case _ =>
  }

  lemma {:induction false} BlockEnds(stmts: seq<Stmt>, st: State, types: Types)
    requires BlockMayEnd(stmts)
    ensures CheckBlock(stmts, st, types).flow.normal.Some?
    decreases stmts
  {
    hide CheckStmt;
    if stmts != [] {
      StmtEnds(stmts[0], st, types);
      BlockEnds(stmts[1..], CheckStmt(stmts[0], st, types).flow.normal.value, types);
    }
  }

  lemma {:induction false} ArmsEnd(arms: seq<Arm>, st: State, types: Types)
    requires ArmMayEnd(arms)
    ensures CheckArms(arms, st, types).normals != []
    decreases arms
  {
    hide CheckBlock, ApplyPattern, VisitAll;
    if BlockMayEnd(arms[0].body) {
      var p := ApplyPattern(arms[0].pattern, st, types);
      BlockEnds(arms[0].body, VisitAll(arms[0].guard, p.state, types).state, types);
    } else {
      ArmsEnd(arms[1..], st, types);
    }
  }

  // ------------------------------------------------------------------ states and the runs behind them

  /** Some run gets here, and what is not believed initialised is missing in one that does. */
  ghost predicate Backed(st: State, from: iset<Avail>, types: Types) {
    && (exists a :: a in from)
    && forall r, q :: r in types && IsLeaf(types[r], q) ==> BackedAt(st, from, r, q)
  }

  ghost predicate BackedAt(st: State, from: iset<Avail>, r: Root, q: Path) {
    r in st && (!Lookup(st[r], q).Initialized? ==> exists a :: a in from && Loc(r, q) !in a)
  }

  ghost predicate Static(st: State) {
    forall r :: r in st ==> NoDynamic(st[r])
  }

  ghost predicate Traced(st: State, from: iset<Avail>, types: Types) {
    StateOk(st, types) && Static(st) && Backed(st, from, types)
  }

  lemma TracedMore(st: State, from: iset<Avail>, more: iset<Avail>, types: Types)
    requires Traced(st, from, types) && from <= more
    ensures Traced(st, more, types)
  {
    forall r, q | r in types && IsLeaf(types[r], q) ensures BackedAt(st, more, r, q) {
      assert BackedAt(st, from, r, q);
    }
  }

  lemma {:induction false} SetStatic(n: Node, p: Path, t: Transition)
    requires NoDynamic(n) && DynamicIndex !in p
    ensures NoDynamic(Set(n, p, t))
    decreases |p|
  {
    if p != [] {
      SetStatic(Child(n, p[0]), p[1..], t);
    }
  }

  lemma {:induction false} JoinStatic(a: Node, b: Node)
    requires NoDynamic(a) && NoDynamic(b)
    ensures NoDynamic(Join(a, b))
    decreases Height(a) + Height(b)
  {
    LeafHeight(a.transition);
    LeafHeight(b.transition);
    forall k | k in a.children.Keys + b.children.Keys
      ensures k != DynamicIndex && NoDynamic(Join(Child(a, k), Child(b, k)))
    {
      JoinStatic(Child(a, k), Child(b, k));
    }
  }

  lemma JoinTwoTraced(a: State, b: State, from: iset<Avail>, types: Types)
    requires Traced(a, from, types) && Traced(b, from, types)
    ensures Traced(JoinTwo(a, b), from, types)
  {
    hide StateOk, Join, NoDynamic;
    assert a.Keys == b.Keys == types.Keys by {
      SameKeys(a, types);
      SameKeys(b, types);
    }
    JoinTwoOk(a, b, types);
    forall r | r in JoinTwo(a, b) ensures NoDynamic(JoinTwo(a, b)[r]) {
      JoinStatic(a[r], b[r]);
    }
    forall r, q | r in types && IsLeaf(types[r], q) ensures BackedAt(JoinTwo(a, b), from, r, q) {
      assert BackedAt(a, from, r, q) && BackedAt(b, from, r, q);
      JoinNeverGrants(a[r], b[r], q);
    }
  }

  lemma SameKeys(st: State, types: Types)
    requires StateOk(st, types)
    ensures st.Keys == types.Keys
  {
  }

  lemma {:induction false} JoinFromTraced(joined: State, states: seq<State>, from: iset<Avail>, types: Types)
    requires Traced(joined, from, types) && forall s :: s in states ==> Traced(s, from, types)
    ensures Traced(JoinFrom(joined, states), from, types)
    decreases states
  {
    hide Traced, JoinTwo;
    if states != [] {
      JoinTwoTraced(joined, states[0], from, types);
      JoinFromTraced(JoinTwo(joined, states[0]), states[1..], from, types);
    }
  }

  lemma JoinAllTraced(states: seq<State>, from: iset<Avail>, types: Types)
    requires forall s :: s in states ==> Traced(s, from, types)
    ensures JoinAll(states).Some? ==> Traced(JoinAll(states).value, from, types)
  {
    hide Traced, JoinFrom;
    if states != [] {
      JoinFromTraced(states[0], states[1..], from, types);
    }
  }

  /** Moving a place out, in the state and in every run. */
  lemma MoveTraced(st: State, from: iset<Avail>, place: Place, span: nat, to: iset<Avail>, types: Types)
    requires Traced(st, from, types) && PlaceOk(place, types) && DynamicIndex !in place.path
    requires forall a :: a in from ==> a - Below(place.root, place.path) in to
    ensures Traced(SetPlace(st, place, Moved(span)), to, types)
  {
    hide NoDynamic, Set, Conforms, ValidPath;
    var st2 := SetPlace(st, place, Moved(span));
    SetOk(st, types, place, Moved(span));
    SetStatic(st[place.root], place.path, Moved(span));
    var some :| some in from;
    forall r, q | r in types && IsLeaf(types[r], q) ensures BackedAt(st2, to, r, q) {
      assert BackedAt(st, from, r, q);
      if r == place.root {
        SetMeaning(st[r], place.path, Moved(span), q);
      }
      if !Lookup(st2[r], q).Initialized? {
        var a :| a in from && (Loc(r, q) !in a || (r == place.root && place.path <= q));
        assert Loc(r, q) !in a - Below(place.root, place.path);
      }
    }
  }

  /** Initialising a place, in the state and in every run. */
  lemma FillTraced(st: State, from: iset<Avail>, place: Place, span: nat, to: iset<Avail>, types: Types)
    requires Traced(st, from, types) && PlaceOk(place, types) && DynamicIndex !in place.path
    requires forall a :: a in from ==> a + Below(place.root, place.path) in to
    ensures Traced(SetPlace(st, place, Initialized(span)), to, types)
  {
    hide NoDynamic, Set, Conforms, ValidPath;
    var st2 := SetPlace(st, place, Initialized(span));
    SetOk(st, types, place, Initialized(span));
    SetStatic(st[place.root], place.path, Initialized(span));
    var some :| some in from;
    forall r, q | r in types && IsLeaf(types[r], q) ensures BackedAt(st2, to, r, q) {
      assert BackedAt(st, from, r, q);
      if r == place.root {
        SetMeaning(st[r], place.path, Initialized(span), q);
      }
      if !Lookup(st2[r], q).Initialized? {
        var a :| a in from && Loc(r, q) !in a;
        assert Loc(r, q) !in a + Below(place.root, place.path);
      }
    }
  }

  // ------------------------------------------------------------------ places

  lemma {:induction false} ResolveStatic(ty: Ty, p: Path, choices: seq<nat>)
    requires DynamicIndex !in p
    ensures Resolve(ty, p, choices) == Some((p, choices))
    decreases |p|
  {
    if p != [] {
      ResolveStatic(if Project(ty, p[0]).Some? then Project(ty, p[0]).value else ty, p[1..], choices);
      assert p == [p[0]] + p[1..];
    }
  }

  lemma {:induction false} StaticBase(p: Path)
    requires DynamicIndex !in p
    ensures Base(p) == p
    decreases |p|
  {
    if p != [] {
      StaticBase(p[1..]);
    }
  }

  lemma {:induction false} LeafAbove(ty: Ty, b: Path, q: Path)
    requires ValidPath(ty, b) && DynamicIndex !in b && IsLeaf(TypeAt(ty, b), q)
    ensures IsLeaf(ty, b + q)
    decreases |b|
  {
    if b == [] {
      assert b + q == q;
    } else {
      LeafAbove(Project(ty, b[0]).value, b[1..], q);
      assert (b + q)[1..] == b[1..] + q;
    }
  }

  /** A place all of whose leaves are held in every run is usable. */
  lemma HeldIsUsable(st: State, from: iset<Avail>, place: Place, types: Types)
    requires Traced(st, from, types) && TypesOk(types) && PlaceOk(place, types) && DynamicIndex !in place.path
    requires forall a :: a in from ==> LeavesHeld(a, types, place.root, place.path)
    ensures Usable(st, types, place)
  {
    hide DynamicsInitialized, NodeAt, NoDynamic, Available, PlaceAvailable;
    var (n, ty, p) := (st[place.root], types[place.root], place.path);
    StaticBase(p);
    PlaceAvailableExact(n, ty, p);
    forall q | IsLeaf(TypeAt(ty, p), q) ensures Lookup(n, p + q).Initialized? {
      LeafAbove(ty, p, q);
      assert BackedAt(st, from, place.root, p + q);
      assert p <= p + q;
    }
  }

  /** What every run leaves behind, without a choice. */
  lemma NoChoice(x: Piece, from: iset<Avail>, f: Avail -> Avail, types: Types)
    requires Safe(x, from, types)
    requires forall a :: a in from ==>
               RunOf(x, a, types, []).Unsafe? || RunOf(x, a, types, []) == Done(Completes, f(a), [])
    ensures forall a :: a in from ==> f(a) in Outs(x, from, Completes, types)
  {
    hide RunOf;
    forall a | a in from ensures f(a) in Outs(x, from, Completes, types) {
      assert !RunOf(x, a, types, []).Unsafe?;
      InOuts(x, from, Completes, types, a, [], f(a));
    }
  }

  // ------------------------------------------------------------------ expressions

  /** Nothing is reported, and the state is backed by the runs of the piece. */
  ghost predicate Exact(v: Visited, x: Piece, from: iset<Avail>, types: Types) {
    v.reports == [] && Traced(v.state, Outs(x, from, Completes, types), types)
  }

  lemma UseExact(u: Use, st: State, from: iset<Avail>, types: Types)
    requires Traced(st, from, types) && TypesOk(types) && PlaceOk(u.place, types) && Fine([u], types)
    requires Safe(OfUse(u), from, types)
    ensures Exact(VisitUse(u, st, types), OfUse(u), from, types)
  {
    hide Traced, Usable, Outs, LeavesHeld, IndexedMove;
    assert u in [u];
    forall a | a in from
      ensures LeavesHeld(a, types, u.place.root, u.place.path)
      ensures RunUse(u, a, types, [])
           == Done(Completes, if u.moves then a - Below(u.place.root, u.place.path) else a, [])
    {
      ResolveStatic(types[u.place.root], u.place.path, []);
      assert !RunOf(OfUse(u), a, types, []).Unsafe?;
    }
    HeldIsUsable(st, from, u.place, types);
    var f := (a: Avail) => if u.moves then a - Below(u.place.root, u.place.path) else a;
    NoChoice(OfUse(u), from, f, types);
    var to := Outs(OfUse(u), from, Completes, types);
    if u.moves {
      forall a | a in from ensures a - Below(u.place.root, u.place.path) in to {
        assert f(a) in to;
      }
      MoveTraced(st, from, u.place, u.span, to, types);
    } else {
      forall a | a in from ensures a in to {
        assert f(a) in to;
      }
      TracedMore(st, from, to, types);
    }
  }

  /** One piece after another, each checked from the state the one before left. */
  lemma InRow(x: Piece, y: Piece, z: Piece, from: iset<Avail>, types: Types)
    requires Within(Then(x, y), z, types) && Safe(z, from, types)
    ensures Safe(x, from, types) && Safe(y, Outs(x, from, Completes, types), types)
    ensures forall exit :: Outs(y, Outs(x, from, Completes, types), exit, types) <= Outs(z, from, exit, types)
    ensures forall exit :: exit != Completes ==> Outs(x, from, exit, types) <= Outs(z, from, exit, types)
  {
    hide RunOf, Outs, Within, Safe;
    Narrow(Then(x, y), z, from, types);
    ThenSplits(x, y, from, types);
    forall exit
      ensures Outs(y, Outs(x, from, Completes, types), exit, types) <= Outs(z, from, exit, types)
      ensures exit != Completes ==> Outs(x, from, exit, types) <= Outs(z, from, exit, types)
    {
    }
  }

  lemma ExactMore(v: Visited, x: Piece, from: iset<Avail>, z: Piece, from2: iset<Avail>, types: Types)
    requires Exact(v, x, from, types) && Outs(x, from, Completes, types) <= Outs(z, from2, Completes, types)
    ensures Exact(v, z, from2, types)
  {
    hide Traced, Outs;
    TracedMore(v.state, Outs(x, from, Completes, types), Outs(z, from2, Completes, types), types);
  }

  lemma UsesInRow(us: seq<Use>, types: Types)
    requires us != []
    ensures Within(Then(OfUse(us[0]), OfUses(us[1..])), OfUses(us), types)
  {
    hide RunUse;
    forall a, choices ensures WithinAt(Then(OfUse(us[0]), OfUses(us[1..])), OfUses(us), a, types, choices) {
      UseFramed(us[0], a, types, choices, []);
      ThenRuns(OfUse(us[0]), OfUses(us[1..]), a, types, choices);
    }
  }

  lemma NothingRuns(z: Piece, from: iset<Avail>, st: State, types: Types)
    requires Traced(st, from, types)
    requires forall a :: RunOf(z, a, types, []) == Done(Completes, a, [])
    ensures Exact(Visited(st, []), z, from, types)
  {
    hide RunOf, Traced;
    forall a | a in from ensures a in Outs(z, from, Completes, types) {
      InOuts(z, from, Completes, types, a, [], a);
    }
    TracedMore(st, from, Outs(z, from, Completes, types), types);
  }

  lemma {:induction false} UsesExact(us: seq<Use>, st: State, from: iset<Avail>, types: Types)
    requires Traced(st, from, types) && TypesOk(types) && UsesOk(us, types) && Fine(us, types)
    requires Safe(OfUses(us), from, types)
    ensures Exact(VisitUses(us, st, types), OfUses(us), from, types)
  {
    hide Traced, Outs, VisitUse, Safe, Within, Fine;
    if us == [] {
      NothingRuns(OfUses(us), from, st, types);
    } else {
      assert us == [us[0]] + us[1..];
      FineBoth([us[0]], us[1..], types);
      UsesInRow(us, types);
      InRow(OfUse(us[0]), OfUses(us[1..]), OfUses(us), from, types);
      UseExact(us[0], st, from, types);
      var mid := Outs(OfUse(us[0]), from, Completes, types);
      var first := VisitUse(us[0], st, types);
      UsesExact(us[1..], first.state, mid, types);
      var rest := VisitUses(us[1..], first.state, types);
      ExactMore(rest, OfUses(us[1..]), mid, OfUses(us), from, types);
    }
  }

  lemma ExprInRow(e: Expr, own: bool, types: Types)
    ensures own ==> Within(Then(OfOperands(e.operands), OfUses(e.uses)), OfExpr(e, own), types)
    ensures !own ==> Within(OfOperands(e.operands), OfExpr(e, own), types)
  {
    hide RunOperands, RunUses;
    forall a, choices
      ensures own ==> WithinAt(Then(OfOperands(e.operands), OfUses(e.uses)), OfExpr(e, own), a, types, choices)
      ensures !own ==> WithinAt(OfOperands(e.operands), OfExpr(e, own), a, types, choices)
    {
      OperandsFramed(e.operands, a, types, choices, []);
      ThenRuns(OfOperands(e.operands), OfUses(e.uses), a, types, choices);
    }
  }

  lemma {:induction false} ExprExact(e: Expr, st: State, from: iset<Avail>, types: Types, own: bool)
    requires Traced(st, from, types) && TypesOk(types) && ExprOk(e, types) && Fine(Performed(e, own), types)
    requires Safe(OfExpr(e, own), from, types)
    ensures Exact(Visit(e, st, types, own), OfExpr(e, own), from, types)
    decreases e, 1
  {
    hide Traced, Outs, VisitOperands, VisitUses, Safe, Within, Fine, PerformedOperands;
    ExprInRow(e, own, types);
    FineBoth(PerformedOperands(e.operands), if own then e.uses else [], types);
    var x := OfOperands(e.operands);
    var inner := VisitOperands(e.operands, st, types);
    if own {
      InRow(x, OfUses(e.uses), OfExpr(e, own), from, types);
      OperandsExact(e.operands, st, from, types);
      var mid := Outs(x, from, Completes, types);
      UsesExact(e.uses, inner.state, mid, types);
      var rest := VisitUses(e.uses, inner.state, types);
      ExactMore(rest, OfUses(e.uses), mid, OfExpr(e, own), from, types);
    } else {
      Narrow(x, OfExpr(e, own), from, types);
      OperandsExact(e.operands, st, from, types);
      ExactMore(inner, x, from, OfExpr(e, own), from, types);
    }
  }

  /** A logical operator evaluates its right operand or not. */
  lemma LogicalPicks(left: Expr, right: Expr, types: Types)
    ensures Within(Then(OfExpr(left, true), Pick(0, 2, Leave(Completes))), OfOperands(Logical(left, right)), types)
    ensures Within(Then(OfExpr(left, true), Pick(1, 2, OfExpr(right, true))), OfOperands(Logical(left, right)), types)
  {
    hide RunExpr;
    var (x, z) := (OfExpr(left, true), OfOperands(Logical(left, right)));
    forall a, choices
      ensures WithinAt(Then(x, Pick(0, 2, Leave(Completes))), z, a, types, choices)
      ensures WithinAt(Then(x, Pick(1, 2, OfExpr(right, true))), z, a, types, choices)
    {
      ExprFramed(left, a, types, choices, [], true);
      ThenPickRuns(x, 0, 2, Leave(Completes), a, types, choices);
      ThenPickRuns(x, 1, 2, OfExpr(right, true), a, types, choices);
    }
  }

  lemma PartInRow(base: Expr, index: seq<Expr>, types: Types)
    ensures Within(Then(OfExpr(base, false), OfAll(index)), OfOperands(PartOf(base, index)), types)
  {
    hide RunExpr, RunAll;
    forall a, choices
      ensures WithinAt(Then(OfExpr(base, false), OfAll(index)), OfOperands(PartOf(base, index)), a, types, choices)
    {
      ExprFramed(base, a, types, choices, [], false);
      ThenRuns(OfExpr(base, false), OfAll(index), a, types, choices);
    }
  }

  /** A piece and then one choice of several. */
  lemma InRowPick(x: Piece, i: nat, n: nat, y: Piece, z: Piece, from: iset<Avail>, types: Types)
    requires i < n && Within(Then(x, Pick(i, n, y)), z, types) && Safe(z, from, types)
    ensures var mid := Outs(x, from, Completes, types);
            && Safe(x, from, types) && Safe(y, mid, types)
            && forall exit :: Outs(y, mid, exit, types) <= Outs(z, from, exit, types)
    ensures forall exit :: exit != Completes ==> Outs(x, from, exit, types) <= Outs(z, from, exit, types)
  {
    hide RunOf, Outs, Within, Safe;
    InRow(x, Pick(i, n, y), z, from, types);
    var mid := Outs(x, from, Completes, types);
    PickSplits(i, n, y, mid, types);
    forall exit ensures Outs(y, mid, exit, types) <= Outs(z, from, exit, types) {
      assert Outs(y, mid, exit, types) <= Outs(Pick(i, n, y), mid, exit, types) <= Outs(z, from, exit, types);
    }
  }

  lemma Leaves(from: iset<Avail>, exit: Exit, types: Types)
    ensures from <= Outs(Leave(exit), from, exit, types)
  {
    forall a | a in from ensures a in Outs(Leave(exit), from, exit, types) {
      InOuts(Leave(exit), from, exit, types, a, [], a);
    }
  }

  lemma {:induction false} OperandsExact(o: Operands, st: State, from: iset<Avail>, types: Types)
    requires Traced(st, from, types) && TypesOk(types) && OperandsOk(o, types) && Fine(PerformedOperands(o), types)
    requires Safe(OfOperands(o), from, types)
    ensures Exact(VisitOperands(o, st, types), OfOperands(o), from, types)
    decreases o, 1
  {
    hide Traced, Outs, Visit, VisitAll, Safe, Within, Fine, Performed, PerformedAll;
    match o
    case All(parts) =>
      assert Within(OfAll(parts), OfOperands(o), types) by {
        SameAll(parts, types);
      }
      Narrow(OfAll(parts), OfOperands(o), from, types);
      AllExact(parts, st, from, types);
      ExactMore(VisitAll(parts, st, types), OfAll(parts), from, OfOperands(o), from, types);
    case Logical(left, right) => LogicalExact(left, right, st, from, types);
    case PartOf(base, index) =>
      PartInRow(base, index, types);
      FineBoth(Performed(base, false), PerformedAll(index), types);
      InRow(OfExpr(base, false), OfAll(index), OfOperands(o), from, types);
      ExprExact(base, st, from, types, false);
      var (first, mid) := (Visit(base, st, types, false), Outs(OfExpr(base, false), from, Completes, types));
      AllExact(index, first.state, mid, types);
      ExactMore(VisitAll(index, first.state, types), OfAll(index), mid, OfOperands(o), from, types);
  }

  lemma SameAll(parts: seq<Expr>, types: Types)
    ensures Within(OfAll(parts), OfOperands(All(parts)), types)
  {
  }

  lemma {:induction false} LogicalExact(left: Expr, right: Expr, st: State, from: iset<Avail>, types: Types)
    requires Traced(st, from, types) && TypesOk(types) && OperandsOk(Logical(left, right), types)
    requires Fine(PerformedOperands(Logical(left, right)), types) && Safe(OfOperands(Logical(left, right)), from, types)
    ensures Exact(VisitOperands(Logical(left, right), st, types), OfOperands(Logical(left, right)), from, types)
    decreases Logical(left, right), 0
  {
    hide Traced, Outs, Visit, Safe, Within, Fine, Performed, JoinTwo;
    var (x, y, z) := (OfExpr(left, true), OfExpr(right, true), OfOperands(Logical(left, right)));
    LogicalPicks(left, right, types);
    FineBoth(Performed(left, true), Performed(right, true), types);
    InRowPick(x, 0, 2, Leave(Completes), z, from, types);
    InRowPick(x, 1, 2, y, z, from, types);
    ExprExact(left, st, from, types, true);
    var (first, mid) := (Visit(left, st, types, true), Outs(x, from, Completes, types));
    ExprExact(right, first.state, mid, types, true);
    var (second, to) := (Visit(right, first.state, types, true), Outs(z, from, Completes, types));
    Leaves(mid, Completes, types);
    TracedMore(first.state, mid, to, types);
    TracedMore(second.state, Outs(y, mid, Completes, types), to, types);
    JoinTwoTraced(first.state, second.state, to, types);
  }

  lemma AllInRow(es: seq<Expr>, types: Types)
    requires es != []
    ensures Within(Then(OfExpr(es[0], true), OfAll(es[1..])), OfAll(es), types)
  {
    hide RunExpr;
    forall a, choices ensures WithinAt(Then(OfExpr(es[0], true), OfAll(es[1..])), OfAll(es), a, types, choices) {
      ExprFramed(es[0], a, types, choices, [], true);
      ThenRuns(OfExpr(es[0], true), OfAll(es[1..]), a, types, choices);
    }
  }

  lemma {:induction false} AllExact(es: seq<Expr>, st: State, from: iset<Avail>, types: Types)
    requires Traced(st, from, types) && TypesOk(types) && ExprsOk(es, types) && Fine(PerformedAll(es), types)
    requires Safe(OfAll(es), from, types)
    ensures Exact(VisitAll(es, st, types), OfAll(es), from, types)
    decreases es, 0
  {
    hide Traced, Outs, Visit, Safe, Within, Fine, Performed;
    if es == [] {
      NothingRuns(OfAll(es), from, st, types);
    } else {
      AllInRow(es, types);
      FineBoth(Performed(es[0], true), PerformedAll(es[1..]), types);
      InRow(OfExpr(es[0], true), OfAll(es[1..]), OfAll(es), from, types);
      ExprExact(es[0], st, from, types, true);
      var (first, mid) := (Visit(es[0], st, types, true), Outs(OfExpr(es[0], true), from, Completes, types));
      AllExact(es[1..], first.state, mid, types);
      ExactMore(VisitAll(es[1..], first.state, types), OfAll(es[1..]), mid, OfAll(es), from, types);
    }
  }

  // ------------------------------------------------------------------ patterns

  lemma PatternInRow(steps: seq<PatternStep>, types: Types)
    requires steps != []
    ensures Within(Then(OfStep(steps[0]), OfPattern(steps[1..])), OfPattern(steps), types)
  {
    hide RunStep;
    forall a, choices
      ensures WithinAt(Then(OfStep(steps[0]), OfPattern(steps[1..])), OfPattern(steps), a, types, choices)
    {
      StepFramed(steps[0], a, types, choices, []);
      ThenRuns(OfStep(steps[0]), OfPattern(steps[1..]), a, types, choices);
    }
  }

  lemma {:induction false} PatternExact(steps: seq<PatternStep>, st: State, from: iset<Avail>, types: Types)
    requires Traced(st, from, types) && TypesOk(types) && PatternOk(steps, types) && PatternPlain(steps)
    requires Fine(PatternUses(steps), types) && Safe(OfPattern(steps), from, types)
    ensures Exact(ApplyPattern(steps, st, types), OfPattern(steps), from, types)
    decreases steps
  {
    hide Traced, Outs, Safe, Within, Fine, ApplyStep, StepUses, StepOk, StepPlain;
    if steps == [] {
      NothingRuns(OfPattern(steps), from, st, types);
    } else {
      PatternInRow(steps, types);
      FineBoth(StepUses(steps[0]), PatternUses(steps[1..]), types);
      InRow(OfStep(steps[0]), OfPattern(steps[1..]), OfPattern(steps), from, types);
      StepExact(steps[0], st, from, types);
      var (first, mid) := (ApplyStep(steps[0], st, types), Outs(OfStep(steps[0]), from, Completes, types));
      PatternExact(steps[1..], first.state, mid, types);
      ExactMore(ApplyPattern(steps[1..], first.state, types), OfPattern(steps[1..]), mid, OfPattern(steps), from,
                types);
    }
  }

  lemma {:induction false} StepExact(s: PatternStep, st: State, from: iset<Avail>, types: Types)
    requires Traced(st, from, types) && TypesOk(types) && StepOk(s, types) && StepPlain(s)
    requires Fine(StepUses(s), types) && Safe(OfStep(s), from, types)
    ensures Exact(ApplyStep(s, st, types), OfStep(s), from, types)
    decreases s
  {
    hide Traced, Outs, Safe, Within, Fine, VisitUse, PatternUses, EitherOk, EitherPlain, RunUse;
    match s
    case Consume(u) =>
      assert Within(OfUse(u), OfStep(s), types) by {
        SameUse(u, types);
      }
      Narrow(OfUse(u), OfStep(s), from, types);
      UseExact(u, st, from, types);
      ExactMore(VisitUse(u, st, types), OfUse(u), from, OfStep(s), from, types);
    case Bind(root, span) =>
      var f := (a: Avail) => a + Below(root, []);
      NoChoice(OfStep(s), from, f, types);
      var to := Outs(OfStep(s), from, Completes, types);
      forall a | a in from ensures a + Below(root, []) in to {
        assert f(a) in to;
      }
      FillTraced(st, from, Place(root, []), span, to, types);
    case Either(alternatives) =>
      var to := Outs(OfStep(s), from, Completes, types);
      forall i | 0 <= i < |alternatives|
        ensures Safe(OfPattern(alternatives[i].steps), from, types)
        ensures Outs(OfPattern(alternatives[i].steps), from, Completes, types) <= to
      {
        AlternativePick(alternatives, i, types);
        Narrow(Pick(i, |alternatives|, OfPattern(alternatives[i].steps)), OfStep(s), from, types);
        PickSplits(i, |alternatives|, OfPattern(alternatives[i].steps), from, types);
      }
      EitherExact(alternatives, st, from, to, types);
      JoinAllTraced(ApplyEither(alternatives, st, types).states, to, types);
  }

  lemma SameUse(u: Use, types: Types)
    ensures Within(OfUse(u), OfStep(Consume(u)), types)
  {
    hide RunUse;
  }

  lemma AlternativePick(alternatives: seq<Alternative>, i: nat, types: Types)
    requires i < |alternatives|
    ensures Within(Pick(i, |alternatives|, OfPattern(alternatives[i].steps)), OfStep(Either(alternatives)), types)
  {
    hide RunPattern;
    var (y, z) := (OfPattern(alternatives[i].steps), OfStep(Either(alternatives)));
    forall a, choices ensures WithinAt(Pick(i, |alternatives|, y), z, a, types, choices) {
      PickRuns(i, |alternatives|, y, a, types, choices);
    }
  }

  lemma {:induction false} EitherExact(alternatives: seq<Alternative>, st: State, from: iset<Avail>, to: iset<Avail>,
                                       types: Types)
    requires Traced(st, from, types) && TypesOk(types) && EitherOk(alternatives, types) && EitherPlain(alternatives)
    requires Fine(EitherUses(alternatives), types)
    requires forall i :: 0 <= i < |alternatives| ==>
               && Safe(OfPattern(alternatives[i].steps), from, types)
               && Outs(OfPattern(alternatives[i].steps), from, Completes, types) <= to
    ensures ApplyEither(alternatives, st, types).reports == []
    ensures |ApplyEither(alternatives, st, types).states| == |alternatives|
    ensures forall s :: s in ApplyEither(alternatives, st, types).states ==> Traced(s, to, types)
    decreases alternatives
  {
    hide Traced, Outs, Safe, Fine, ApplyPattern, PatternUses, PatternOk, PatternPlain;
    if alternatives != [] {
      var steps := alternatives[0].steps;
      FineBoth(PatternUses(steps), EitherUses(alternatives[1..]), types);
      PatternExact(steps, st, from, types);
      TracedMore(ApplyPattern(steps, st, types).state, Outs(OfPattern(steps), from, Completes, types), to, types);
      forall i | 0 <= i < |alternatives[1..]|
        ensures Safe(OfPattern(alternatives[1..][i].steps), from, types)
        ensures Outs(OfPattern(alternatives[1..][i].steps), from, Completes, types) <= to
      {
        assert alternatives[1..][i] == alternatives[i + 1];
      }
      EitherExact(alternatives[1..], st, from, to, types);
    }
  }

  // ------------------------------------------------------------------ statements

  ghost predicate AllTraced(states: seq<State>, from: iset<Avail>, types: Types) {
    forall s :: s in states ==> Traced(s, from, types)
  }

  lemma AllTracedMore(states: seq<State>, from: iset<Avail>, more: iset<Avail>, types: Types)
    requires AllTraced(states, from, types) && from <= more
    ensures AllTraced(states, more, types)
  {
    hide Traced;
    forall s | s in states ensures Traced(s, more, types) {
      TracedMore(s, from, more, types);
    }
  }

  /** The states that leave a piece along each edge are backed by the runs that leave it so. */
  ghost predicate FlowTraced(f: Flow, x: Piece, from: iset<Avail>, types: Types) {
    && (f.normal.Some? ==> Traced(f.normal.value, Outs(x, from, Completes, types), types))
    && AllTraced(f.breaks, Outs(x, from, Breaks, types), types)
    && AllTraced(f.continues, Outs(x, from, Continues, types), types)
  }

  /** The same where the runs are among those of a larger piece. */
  lemma FlowTracedMore(f: Flow, x: Piece, from: iset<Avail>, z: Piece, from2: iset<Avail>, types: Types)
    requires FlowTraced(f, x, from, types)
    requires forall exit :: Outs(x, from, exit, types) <= Outs(z, from2, exit, types)
    ensures FlowTraced(f, z, from2, types)
  {
    hide Traced, Outs, AllTraced;
    if f.normal.Some? {
      TracedMore(f.normal.value, Outs(x, from, Completes, types), Outs(z, from2, Completes, types), types);
    }
    AllTracedMore(f.breaks, Outs(x, from, Breaks, types), Outs(z, from2, Breaks, types), types);
    AllTracedMore(f.continues, Outs(x, from, Continues, types), Outs(z, from2, Continues, types), types);
  }

  lemma AllTracedBoth(a: seq<State>, b: seq<State>, from: iset<Avail>, types: Types)
    requires AllTraced(a, from, types) && AllTraced(b, from, types)
    ensures AllTraced(a + b, from, types)
  {
    hide Traced;
  }

  lemma ChainTraced(a: Option<State>, b: Option<State>, from: iset<Avail>, types: Types)
    requires (a.Some? ==> Traced(a.value, from, types)) && (b.Some? ==> Traced(b.value, from, types))
    ensures AllTraced(Chain(a, b), from, types)
  {
    hide Traced;
  }

  ghost predicate StmtExact(c: Checked, x: Piece, from: iset<Avail>, types: Types) {
    c.reports == [] && FlowTraced(c.flow, x, from, types)
  }

  /** What makes a statement one to which the theorem applies. */
  ghost predicate StmtFit(s: Stmt, types: Types) {
    StmtOk(s, types) && StmtPlain(s) && Fine(StmtUses(s), types)
  }

  ghost predicate BlockFit(stmts: seq<Stmt>, types: Types) {
    BlockOk(stmts, types) && BlockPlain(stmts) && Fine(BlockUses(stmts), types)
  }

  ghost predicate ArmsFit(arms: seq<Arm>, types: Types) {
    ArmsOk(arms, types) && ArmsPlain(arms) && Fine(ArmsUses(arms), types)
  }

  lemma {:induction false} StmtExactly(s: Stmt, st: State, from: iset<Avail>, types: Types)
    requires Traced(st, from, types) && TypesOk(types) && StmtFit(s, types) && Safe(OfStmt(s), from, types)
    ensures StmtExact(CheckStmt(s, st, types), OfStmt(s), from, types)
    decreases s, 1, 0
  {
    hide Traced, Outs, Safe, CheckStmt, StmtFit, RunOf;
    match s
    case Let(_, _, _) => LetExact(s, st, from, types);
    case Assign(_, _, _, _, _) => AssignExact(s, st, from, types);
    case Eval(_) => EvalExact(s, st, from, types);
    case Return(_) => ReturnExact(s, st, from, types);
    case If(_, _, _) => IfExact(s, st, from, types);
    case While(_, _) => WhileExact(s, st, from, types);
    case For(_, _, _, _) => ForExact(s, st, from, types);
    case Match(_, _) => MatchExact(s, st, from, types);
    case Block(_) => NestedExact(s, st, from, types);
    case _ => JumpExact(s, st, from, types);
  }

  lemma JumpExact(s: Stmt, st: State, from: iset<Avail>, types: Types)
    requires (s.Break? || s.Continue? || s.Pass?) && Traced(st, from, types)
    ensures StmtExact(CheckStmt(s, st, types), OfStmt(s), from, types)
  {
    hide Traced;
    var exit := if s.Break? then Breaks else if s.Continue? then Continues else Completes;
    forall a | a in from ensures a in Outs(OfStmt(s), from, exit, types) {
      InOuts(OfStmt(s), from, exit, types, a, [], a);
    }
    TracedMore(st, from, Outs(OfStmt(s), from, exit, types), types);
  }

  lemma {:induction false} BindsExact(roots: seq<Root>, span: nat, st: State, from: iset<Avail>, types: Types)
    requires Traced(st, from, types) && forall r :: r in roots ==> r in types
    ensures Traced(BindAll(roots, span, st), Outs(OfBinds(roots), from, Completes, types), types)
  {
    hide Traced, Outs, SetPlace;
    if roots == [] {
      NothingRuns(OfBinds(roots), from, st, types);
    } else {
      var mid := iset a | a in from :: a + Below(roots[0], []);
      FillTraced(st, from, Place(roots[0], []), span, mid, types);
      BindsExact(roots[1..], span, SetPlace(st, Place(roots[0], []), Initialized(span)), mid, types);
      var (x, z) := (OfBinds(roots[1..]), OfBinds(roots));
      forall b | b in Outs(x, mid, Completes, types) ensures b in Outs(z, from, Completes, types) {
        var m, choices := FromOuts(x, mid, Completes, types, b);
        var a :| a in from && m == a + Below(roots[0], []);
        InOuts(z, from, Completes, types, a, choices, b);
      }
      TracedMore(BindAll(roots, span, st), Outs(x, mid, Completes, types), Outs(z, from, Completes, types), types);
    }
  }

  lemma LetInRow(s: Stmt, types: Types)
    requires s.Let?
    ensures Within(Then(OfExpr(s.value, true), OfBinds(s.bindings)), OfStmt(s), types)
  {
    hide RunExpr, BindRoots;
    var (x, y) := (OfExpr(s.value, true), OfBinds(s.bindings));
    forall a, choices ensures WithinAt(Then(x, y), OfStmt(s), a, types, choices) {
      ExprFramed(s.value, a, types, choices, [], true);
      ThenRuns(x, y, a, types, choices);
    }
  }

  lemma LetExact(s: Stmt, st: State, from: iset<Avail>, types: Types)
    requires s.Let? && Traced(st, from, types) && TypesOk(types) && StmtFit(s, types) && Safe(OfStmt(s), from, types)
    ensures StmtExact(CheckStmt(s, st, types), OfStmt(s), from, types)
  {
    hide Traced, Outs, Safe, Within, Fine, Visit, RunOf, BindAll;
    var (x, y) := (OfExpr(s.value, true), OfBinds(s.bindings));
    LetInRow(s, types);
    InRow(x, y, OfStmt(s), from, types);
    ExprExact(s.value, st, from, types, true);
    var (v, mid) := (Visit(s.value, st, types, true), Outs(x, from, Completes, types));
    BindsExact(s.bindings, s.span, v.state, mid, types);
    TracedMore(BindAll(s.bindings, s.span, v.state), Outs(y, mid, Completes, types),
               Outs(OfStmt(s), from, Completes, types), types);
  }

  lemma WriteExact(place: Place, compound: bool, span: nat, st: State, from: iset<Avail>, types: Types)
    requires Traced(st, from, types) && TypesOk(types) && PlaceOk(place, types) && DynamicIndex !in place.path
    requires Safe(OfWrite(place, compound), from, types)
    ensures compound ==> Usable(st, types, place)
    ensures var to := Outs(OfWrite(place, compound), from, Completes, types);
            Traced(SetPlace(st, place, Initialized(span)), to, types)
  {
    hide Traced, Usable, Outs, LeavesHeld;
    var z := OfWrite(place, compound);
    forall a | a in from
      ensures compound ==> LeavesHeld(a, types, place.root, place.path)
      ensures RunWrite(place, compound, a, types, []) == Done(Completes, a + Below(place.root, place.path), [])
    {
      ResolveStatic(types[place.root], place.path, []);
      assert !RunOf(z, a, types, []).Unsafe?;
    }
    if compound {
      HeldIsUsable(st, from, place, types);
    }
    var f := (a: Avail) => a + Below(place.root, place.path);
    NoChoice(z, from, f, types);
    var to := Outs(z, from, Completes, types);
    forall a | a in from ensures a + Below(place.root, place.path) in to {
      assert f(a) in to;
    }
    FillTraced(st, from, place, span, to, types);
  }

  lemma AssignInRow(s: Stmt, types: Types)
    requires s.Assign?
    ensures Within(Then(OfAll(s.inputs), Then(OfExpr(s.value, true), OfWrite(s.place, s.compound))), OfStmt(s), types)
  {
    hide RunAll, RunExpr, RunWrite;
    var (x, y, w) := (OfAll(s.inputs), OfExpr(s.value, true), OfWrite(s.place, s.compound));
    forall a, choices ensures WithinAt(Then(x, Then(y, w)), OfStmt(s), a, types, choices) {
      AllFramed(s.inputs, a, types, choices, []);
      ThenRuns(x, Then(y, w), a, types, choices);
      var i := RunAll(s.inputs, a, types, choices);
      if i.Done? {
        ExprFramed(s.value, i.avail, types, i.rest, [], true);
        ThenRuns(y, w, i.avail, types, i.rest);
      }
    }
  }

  lemma AssignExact(s: Stmt, st: State, from: iset<Avail>, types: Types)
    requires s.Assign? && Traced(st, from, types) && TypesOk(types) && StmtFit(s, types) && Safe(OfStmt(s), from, types)
    ensures StmtExact(CheckStmt(s, st, types), OfStmt(s), from, types)
  {
    hide Traced, Outs, Safe, Within, Fine, Visit, VisitAll, RunOf, Usable, SetPlace;
    var (x, y, w) := (OfAll(s.inputs), OfExpr(s.value, true), OfWrite(s.place, s.compound));
    FineBoth(PerformedAll(s.inputs), Performed(s.value, true), types);
    AssignInRow(s, types);
    InRow(x, Then(y, w), OfStmt(s), from, types);
    AllExact(s.inputs, st, from, types);
    var (i, given) := (VisitAll(s.inputs, st, types), Outs(x, from, Completes, types));
    ThenSplits(y, w, given, types);
    ExprExact(s.value, i.state, given, types, true);
    var (v, mid) := (Visit(s.value, i.state, types, true), Outs(y, given, Completes, types));
    WriteExact(s.place, s.compound, s.span, v.state, mid, types);
    TracedMore(SetPlace(v.state, s.place, Initialized(s.span)), Outs(w, mid, Completes, types),
               Outs(OfStmt(s), from, Completes, types), types);
  }

  lemma EvalWithin(s: Stmt, types: Types)
    requires s.Eval?
    ensures Within(OfExpr(s.value, true), OfStmt(s), types)
  {
    hide RunExpr;
    forall a, choices ensures WithinAt(OfExpr(s.value, true), OfStmt(s), a, types, choices) {
      ExprFramed(s.value, a, types, choices, [], true);
    }
  }

  lemma EvalExact(s: Stmt, st: State, from: iset<Avail>, types: Types)
    requires s.Eval? && Traced(st, from, types) && TypesOk(types) && StmtFit(s, types) && Safe(OfStmt(s), from, types)
    ensures StmtExact(CheckStmt(s, st, types), OfStmt(s), from, types)
  {
    hide Traced, Outs, Safe, Within, Fine, Visit, RunExpr;
    var x := OfExpr(s.value, true);
    EvalWithin(s, types);
    Narrow(x, OfStmt(s), from, types);
    ExprExact(s.value, st, from, types, true);
    TracedMore(Visit(s.value, st, types, true).state, Outs(x, from, Completes, types),
               Outs(OfStmt(s), from, Completes, types), types);
  }

  lemma ReturnExact(s: Stmt, st: State, from: iset<Avail>, types: Types)
    requires s.Return? && Traced(st, from, types) && TypesOk(types) && StmtFit(s, types) && Safe(OfStmt(s), from, types)
    ensures StmtExact(CheckStmt(s, st, types), OfStmt(s), from, types)
  {
    hide Traced, Outs, Fine, VisitAll, RunAll;
    var x := OfAll(s.result);
    forall a, choices | a in from ensures !RunOf(x, a, types, choices).Unsafe? {
      assert !RunOf(OfStmt(s), a, types, choices).Unsafe?;
    }
    AllExact(s.result, st, from, types);
  }

  // ------------------------------------------------------------------ statements with bodies

  lemma SplitIf(s: Stmt, types: Types)
    requires s.If? && StmtFit(s, types)
    ensures ExprOk(s.condition, types) && Fine(Performed(s.condition, true), types)
    ensures BlockFit(s.thenBody, types) && BlockFit(s.elseBody, types)
  {
    hide Fine, BlockOk, BlockPlain, Performed, ExprOk;
    FineBoth(Performed(s.condition, true), BlockUses(s.thenBody) + BlockUses(s.elseBody), types);
    FineBoth(BlockUses(s.thenBody), BlockUses(s.elseBody), types);
  }

  lemma IfPicks(s: Stmt, types: Types)
    requires s.If?
    ensures Within(Then(OfExpr(s.condition, true), Pick(0, 2, OfBlock(s.thenBody))), OfStmt(s), types)
    ensures Within(Then(OfExpr(s.condition, true), Pick(1, 2, OfBlock(s.elseBody))), OfStmt(s), types)
  {
    hide RunExpr, RunBlock;
    var (x, y, z) := (OfExpr(s.condition, true), OfBlock(s.thenBody), OfBlock(s.elseBody));
    forall a, choices
      ensures WithinAt(Then(x, Pick(0, 2, y)), OfStmt(s), a, types, choices)
      ensures WithinAt(Then(x, Pick(1, 2, z)), OfStmt(s), a, types, choices)
    {
      ExprFramed(s.condition, a, types, choices, [], true);
      ThenPickRuns(x, 0, 2, y, a, types, choices);
      ThenPickRuns(x, 1, 2, z, a, types, choices);
    }
  }

  lemma {:induction false} IfExact(s: Stmt, st: State, from: iset<Avail>, types: Types)
    requires s.If? && Traced(st, from, types) && TypesOk(types) && StmtFit(s, types) && Safe(OfStmt(s), from, types)
    ensures StmtExact(CheckStmt(s, st, types), OfStmt(s), from, types)
    decreases s, 0, 0
  {
    hide Traced, Outs, Safe, Within, Fine, Visit, RunOf, CheckBlock, BlockFit, StmtFit, ExprOk, FlowTraced, JoinAll;
    SplitIf(s, types);
    IfPicks(s, types);
    var (x, y, z) := (OfExpr(s.condition, true), OfBlock(s.thenBody), OfBlock(s.elseBody));
    InRowPick(x, 0, 2, y, OfStmt(s), from, types);
    InRowPick(x, 1, 2, z, OfStmt(s), from, types);
    ExprExact(s.condition, st, from, types, true);
    var (v, mid) := (Visit(s.condition, st, types, true).state, Outs(x, from, Completes, types));
    BlockExactly(s.thenBody, v, mid, types);
    BlockExactly(s.elseBody, v, mid, types);
    var (a, b) := (CheckBlock(s.thenBody, v, types).flow, CheckBlock(s.elseBody, v, types).flow);
    FlowTracedMore(a, y, mid, OfStmt(s), from, types);
    FlowTracedMore(b, z, mid, OfStmt(s), from, types);
    BranchesTraced(a, b, OfStmt(s), from, types);
  }

  lemma BranchesTraced(a: Flow, b: Flow, z: Piece, from: iset<Avail>, types: Types)
    requires FlowTraced(a, z, from, types) && FlowTraced(b, z, from, types)
    ensures FlowTraced(Flow(JoinAll(Chain(a.normal, b.normal)), JoinAll(Chain(a.dead, b.dead)),
                            a.breaks + b.breaks, a.continues + b.continues), z, from, types)
  {
    hide Traced, Outs, JoinAll;
    var to := Outs(z, from, Completes, types);
    ChainTraced(a.normal, b.normal, to, types);
    JoinAllTraced(Chain(a.normal, b.normal), to, types);
    AllTracedBoth(a.breaks, b.breaks, Outs(z, from, Breaks, types), types);
    AllTracedBoth(a.continues, b.continues, Outs(z, from, Continues, types), types);
  }

  lemma {:induction false} NestedExact(s: Stmt, st: State, from: iset<Avail>, types: Types)
    requires s.Block? && Traced(st, from, types) && TypesOk(types) && StmtFit(s, types) && Safe(OfStmt(s), from, types)
    ensures StmtExact(CheckStmt(s, st, types), OfStmt(s), from, types)
    decreases s, 0, 0
  {
    hide Traced, Outs, Safe, Fine, CheckBlock, FlowTraced, BlockOk, BlockPlain;
    assert Within(OfBlock(s.body), OfStmt(s), types) by {
      NestedWithin(s, types);
    }
    Narrow(OfBlock(s.body), OfStmt(s), from, types);
    BlockExactly(s.body, st, from, types);
    FlowTracedMore(CheckBlock(s.body, st, types).flow, OfBlock(s.body), from, OfStmt(s), from, types);
  }

  lemma NestedWithin(s: Stmt, types: Types)
    requires s.Block?
    ensures Within(OfBlock(s.body), OfStmt(s), types)
  {
    hide RunBlock;
  }

  lemma BlockInRow(stmts: seq<Stmt>, types: Types)
    requires stmts != []
    ensures Within(Then(OfStmt(stmts[0]), OfBlock(stmts[1..])), OfBlock(stmts), types)
  {
    hide RunStmt;
    var (x, y) := (OfStmt(stmts[0]), OfBlock(stmts[1..]));
    forall a, choices ensures WithinAt(Then(x, y), OfBlock(stmts), a, types, choices) {
      ThenRuns(x, y, a, types, choices);
    }
  }

  lemma SplitBlock(stmts: seq<Stmt>, types: Types)
    requires stmts != [] && BlockFit(stmts, types)
    ensures StmtFit(stmts[0], types) && BlockFit(stmts[1..], types) && (|stmts| > 1 ==> MayEnd(stmts[0]))
  {
    hide Fine, StmtOk, StmtPlain, StmtUses, MayEnd;
    FineBoth(StmtUses(stmts[0]), BlockUses(stmts[1..]), types);
  }

  lemma {:induction false} BlockExactly(stmts: seq<Stmt>, st: State, from: iset<Avail>, types: Types)
    requires Traced(st, from, types) && TypesOk(types) && BlockFit(stmts, types) && Safe(OfBlock(stmts), from, types)
    ensures StmtExact(CheckBlock(stmts, st, types), OfBlock(stmts), from, types)
    decreases stmts, 0, 0
  {
    hide Traced, Outs, Safe, Within, RunOf, CheckStmt, StmtFit, BlockFit, MayEnd, FlowTraced;
    if stmts == [] {
      EmptyExact(st, from, types);
    } else {
      var (x, y, z) := (OfStmt(stmts[0]), OfBlock(stmts[1..]), OfBlock(stmts));
      SplitBlock(stmts, types);
      BlockInRow(stmts, types);
      InRow(x, y, z, from, types);
      StmtExactly(stmts[0], st, from, types);
      var first := CheckStmt(stmts[0], st, types);
      if |stmts| > 1 {
        StmtEnds(stmts[0], st, types);
      }
      if first.flow.normal.Some? {
        var (mid, next) := (Outs(x, from, Completes, types), first.flow.normal.value);
        assert Traced(next, mid, types) by {
          FlowNormal(first.flow, x, from, types);
        }
        BlockExactly(stmts[1..], next, mid, types);
        RowTraced(first.flow, CheckBlock(stmts[1..], next, types).flow, x, y, z, from, types);
      } else {
        StopTraced(first.flow, x, z, from, types);
      }
    }
  }

  lemma FlowNormal(f: Flow, x: Piece, from: iset<Avail>, types: Types)
    requires FlowTraced(f, x, from, types) && f.normal.Some?
    ensures Traced(f.normal.value, Outs(x, from, Completes, types), types)
  {
    hide Traced, Outs, AllTraced;
  }

  lemma EmptyExact(st: State, from: iset<Avail>, types: Types)
    requires Traced(st, from, types)
    ensures StmtExact(CheckBlock([], st, types), OfBlock([]), from, types)
  {
    hide Traced, Outs;
    NothingRuns(OfBlock([]), from, st, types);
  }

  lemma RowTraced(f: Flow, g: Flow, x: Piece, y: Piece, z: Piece, from: iset<Avail>, types: Types)
    requires FlowTraced(f, x, from, types) && FlowTraced(g, y, Outs(x, from, Completes, types), types)
    requires forall exit :: Outs(y, Outs(x, from, Completes, types), exit, types) <= Outs(z, from, exit, types)
    requires forall exit :: exit != Completes ==> Outs(x, from, exit, types) <= Outs(z, from, exit, types)
    ensures FlowTraced(Flow(g.normal, None, f.breaks + g.breaks, f.continues + g.continues), z, from, types)
  {
    hide Traced, Outs, AllTraced;
    FlowTracedMore(g, y, Outs(x, from, Completes, types), z, from, types);
    var (b, c) := (Outs(z, from, Breaks, types), Outs(z, from, Continues, types));
    AllTracedMore(f.breaks, Outs(x, from, Breaks, types), b, types);
    AllTracedMore(f.continues, Outs(x, from, Continues, types), c, types);
    AllTracedBoth(f.breaks, g.breaks, b, types);
    AllTracedBoth(f.continues, g.continues, c, types);
  }

  lemma StopTraced(f: Flow, x: Piece, z: Piece, from: iset<Avail>, types: Types)
    requires FlowTraced(f, x, from, types)
    requires forall exit :: exit != Completes ==> Outs(x, from, exit, types) <= Outs(z, from, exit, types)
    ensures FlowTraced(Flow(None, None, f.breaks, f.continues), z, from, types)
  {
    hide Traced, Outs, AllTraced;
    AllTracedMore(f.breaks, Outs(x, from, Breaks, types), Outs(z, from, Breaks, types), types);
    AllTracedMore(f.continues, Outs(x, from, Continues, types), Outs(z, from, Continues, types), types);
  }

  // ------------------------------------------------------------------ matches

  /** An arm that is taken: its pattern, its guard, which holds, and its body. */
  ghost function TakenArm(arm: Arm): Piece {
    Then(OfPattern(arm.pattern),
         if arm.guard == [] then OfBlock(arm.body) else Then(OfAll(arm.guard), Pick(1, 2, OfBlock(arm.body))))
  }

  lemma ArmsPick(arms: seq<Arm>, types: Types)
    requires arms != []
    ensures Within(Pick(0, 2, OfArms(arms[1..])), OfArms(arms), types)
    ensures Within(Pick(1, 2, TakenArm(arms[0])), OfArms(arms), types)
  {
    hide RunPattern, RunAll, RunBlock, RolledBack;
    var (arm, z) := (arms[0], OfArms(arms));
    var (x, g, y) := (OfPattern(arm.pattern), OfAll(arm.guard), OfBlock(arm.body));
    forall a, choices
      ensures WithinAt(Pick(0, 2, OfArms(arms[1..])), z, a, types, choices)
      ensures WithinAt(Pick(1, 2, TakenArm(arm)), z, a, types, choices)
    {
      PickRuns(0, 2, OfArms(arms[1..]), a, types, choices);
      PickRuns(1, 2, TakenArm(arm), a, types, choices);
      if choices != [] && choices[0] % 2 == 1 {
        PatternFramed(arm.pattern, a, types, choices[1..], []);
        ThenRuns(x, if arm.guard == [] then y else Then(g, Pick(1, 2, y)), a, types, choices[1..]);
        var p := RunPattern(arm.pattern, a, types, choices[1..]);
        if p.Done? && arm.guard != [] {
          AllFramed(arm.guard, p.avail, types, p.rest, []);
          ThenPickRuns(g, 1, 2, y, p.avail, types, p.rest);
        }
      }
    }
  }

  ghost predicate ArmsExact(c: ArmsChecked, z: Piece, from: iset<Avail>, types: Types) {
    && c.reports == []
    && AllTraced(c.normals, Outs(z, from, Completes, types), types)
    && AllTraced(c.breaks, Outs(z, from, Breaks, types), types)
    && AllTraced(c.continues, Outs(z, from, Continues, types), types)
  }

  lemma SplitArms(arms: seq<Arm>, types: Types)
    requires arms != [] && ArmsFit(arms, types)
    ensures PatternOk(arms[0].pattern, types) && PatternPlain(arms[0].pattern)
    ensures Fine(PatternUses(arms[0].pattern), types)
    ensures ExprsOk(arms[0].guard, types) && Fine(PerformedAll(arms[0].guard), types)
    ensures BlockFit(arms[0].body, types) && ArmsFit(arms[1..], types)
  {
    hide Fine, PatternOk, PatternPlain, BlockOk, BlockPlain, PatternUses, BlockUses, PerformedAll, ExprsOk;
    var (us, gs, bs) := (PatternUses(arms[0].pattern), PerformedAll(arms[0].guard), BlockUses(arms[0].body));
    FineBoth(us + (gs + bs), ArmsUses(arms[1..]), types);
    FineBoth(us, gs + bs, types);
    FineBoth(gs, bs, types);
  }

  lemma {:induction false} ArmsExactly(arms: seq<Arm>, st: State, from: iset<Avail>, types: Types)
    requires Traced(st, from, types) && TypesOk(types) && ArmsFit(arms, types) && Safe(OfArms(arms), from, types)
    ensures ArmsExact(CheckArms(arms, st, types), OfArms(arms), from, types)
    decreases arms, 1, 0
  {
    hide Traced, Outs, Safe, Within, RunOf, ArmsFit, FlowTraced, ApplyPattern, VisitAll, CheckBlock, AllTraced;
    var z := OfArms(arms);
    if arms == [] {
      NoneTraced(Outs(z, from, Completes, types), types);
      NoneTraced(Outs(z, from, Breaks, types), types);
      NoneTraced(Outs(z, from, Continues, types), types);
    } else {
      ArmsPick(arms, types);
      var rest := OfArms(arms[1..]);
      SplitArms(arms, types);
      Narrow(Pick(0, 2, rest), z, from, types);
      PickSplits(0, 2, rest, from, types);
      Narrow(Pick(1, 2, TakenArm(arms[0])), z, from, types);
      PickSplits(1, 2, TakenArm(arms[0]), from, types);
      ArmsExactly(arms[1..], st, from, types);
      ArmExactly(arms, st, from, types);
      ArmsTraced(arms, st, from, types);
    }
  }

  lemma NoneTraced(from: iset<Avail>, types: Types)
    ensures AllTraced([], from, types)
  {
  }

  /** The state the body of the first arm is checked from. */
  function ArmEntered(arms: seq<Arm>, st: State, types: Types): State
    requires arms != []
  {
    VisitAll(arms[0].guard, ApplyPattern(arms[0].pattern, st, types).state, types).state
  }

  lemma {:induction false} ArmExactly(arms: seq<Arm>, st: State, from: iset<Avail>, types: Types)
    requires arms != [] && Traced(st, from, types) && TypesOk(types) && ArmsFit(arms, types)
    requires Safe(TakenArm(arms[0]), from, types)
    ensures var p := ApplyPattern(arms[0].pattern, st, types);
            && p.reports == [] && VisitAll(arms[0].guard, p.state, types).reports == []
            && StmtExact(CheckBlock(arms[0].body, ArmEntered(arms, st, types), types), TakenArm(arms[0]), from, types)
    decreases arms, 0, 0
  {
    hide Traced, Outs, Safe, Within, RunOf, ArmsFit, BlockFit, FlowTraced, ApplyPattern, VisitAll, CheckBlock, Fine,
      PatternOk, PatternPlain, ExprsOk;
    SplitArms(arms, types);
    var arm := arms[0];
    var (x, g, y) := (OfPattern(arm.pattern), OfAll(arm.guard), OfBlock(arm.body));
    ThenSplits(x, if arm.guard == [] then y else Then(g, Pick(1, 2, y)), from, types);
    PatternExact(arm.pattern, st, from, types);
    var (p, bound) := (ApplyPattern(arm.pattern, st, types), Outs(x, from, Completes, types));
    var c := CheckBlock(arm.body, ArmEntered(arms, st, types), types);
    if arm.guard == [] {
      NoGuardVisited(p.state, types);
      BlockExactly(arm.body, p.state, bound, types);
      FlowTracedMore(c.flow, y, bound, TakenArm(arm), from, types);
    } else {
      GuardSplits(g, y, bound, types);
      AllExact(arm.guard, p.state, bound, types);
      var guarded := Outs(g, bound, Completes, types);
      BlockExactly(arm.body, ArmEntered(arms, st, types), guarded, types);
      FlowTracedMore(c.flow, y, guarded, Then(g, Pick(1, 2, y)), bound, types);
      FlowTracedMore(c.flow, Then(g, Pick(1, 2, y)), bound, TakenArm(arm), from, types);
    }
  }

  lemma NoGuardVisited(st: State, types: Types)
    ensures VisitAll([], st, types) == Visited(st, [])
  {
  }

  lemma GuardSplits(g: Piece, y: Piece, from: iset<Avail>, types: Types)
    requires Safe(Then(g, Pick(1, 2, y)), from, types)
    ensures var mid := Outs(g, from, Completes, types);
            && Safe(g, from, types) && Safe(y, mid, types)
            && forall exit :: Outs(y, mid, exit, types) <= Outs(Then(g, Pick(1, 2, y)), from, exit, types)
  {
    hide Outs, Safe, RunOf;
    assert Within(Then(g, Pick(1, 2, y)), Then(g, Pick(1, 2, y)), types);
    InRowPick(g, 1, 2, y, Then(g, Pick(1, 2, y)), from, types);
  }

  lemma ArmsTraced(arms: seq<Arm>, st: State, from: iset<Avail>, types: Types)
    requires arms != [] && ArmsExact(CheckArms(arms[1..], st, types), OfArms(arms[1..]), from, types)
    requires var p := ApplyPattern(arms[0].pattern, st, types);
             && p.reports == [] && VisitAll(arms[0].guard, p.state, types).reports == []
             && StmtExact(CheckBlock(arms[0].body, ArmEntered(arms, st, types), types), TakenArm(arms[0]), from, types)
    requires forall exit :: Outs(OfArms(arms[1..]), from, exit, types) <= Outs(OfArms(arms), from, exit, types)
    requires forall exit :: Outs(TakenArm(arms[0]), from, exit, types) <= Outs(OfArms(arms), from, exit, types)
    ensures ArmsExact(CheckArms(arms, st, types), OfArms(arms), from, types)
  {
    hide Traced, Outs, AllTraced, ApplyPattern, VisitAll, CheckBlock, TakenArm;
    var (rest, z) := (OfArms(arms[1..]), OfArms(arms));
    var (c, f) := (CheckArms(arms[1..], st, types), CheckBlock(arms[0].body, ArmEntered(arms, st, types), types).flow);
    FlowTracedMore(f, TakenArm(arms[0]), from, z, from, types);
    var (n, b, k) := (Outs(z, from, Completes, types), Outs(z, from, Breaks, types), Outs(z, from, Continues, types));
    AllTracedMore(c.normals, Outs(rest, from, Completes, types), n, types);
    AllTracedMore(c.breaks, Outs(rest, from, Breaks, types), b, types);
    AllTracedMore(c.continues, Outs(rest, from, Continues, types), k, types);
    ChainTraced(f.normal, None, n, types);
    AllTracedBoth(Chain(f.normal, None), c.normals, n, types);
    AllTracedBoth(f.breaks, c.breaks, b, types);
    AllTracedBoth(f.continues, c.continues, k, types);
  }

  lemma MatchInRow(s: Stmt, types: Types)
    requires s.Match?
    ensures Within(Then(OfExpr(s.scrutinee, true), OfArms(s.arms)), OfStmt(s), types)
  {
    hide RunExpr, RunArms;
    var (x, y) := (OfExpr(s.scrutinee, true), OfArms(s.arms));
    forall a, choices ensures WithinAt(Then(x, y), OfStmt(s), a, types, choices) {
      ExprFramed(s.scrutinee, a, types, choices, [], true);
      ThenRuns(x, y, a, types, choices);
    }
  }

  lemma {:induction false} MatchExact(s: Stmt, st: State, from: iset<Avail>, types: Types)
    requires s.Match? && Traced(st, from, types) && TypesOk(types) && StmtFit(s, types) && Safe(OfStmt(s), from, types)
    ensures StmtExact(CheckStmt(s, st, types), OfStmt(s), from, types)
    decreases s, 0, 0
  {
    hide Traced, Outs, Safe, Within, Fine, Visit, RunOf, CheckArms, AllTraced, JoinAll, ArmsOk, ArmsPlain, ArmsUses,
      Performed;
    var (x, y, z) := (OfExpr(s.scrutinee, true), OfArms(s.arms), OfStmt(s));
    FineBoth(Performed(s.scrutinee, true), ArmsUses(s.arms), types);
    MatchInRow(s, types);
    InRow(x, y, z, from, types);
    ExprExact(s.scrutinee, st, from, types, true);
    var (v, mid) := (Visit(s.scrutinee, st, types, true).state, Outs(x, from, Completes, types));
    ArmsExactly(s.arms, v, mid, types);
    var c := CheckArms(s.arms, v, types);
    AllTracedMore(c.normals, Outs(y, mid, Completes, types), Outs(z, from, Completes, types), types);
    AllTracedMore(c.breaks, Outs(y, mid, Breaks, types), Outs(z, from, Breaks, types), types);
    AllTracedMore(c.continues, Outs(y, mid, Continues, types), Outs(z, from, Continues, types), types);
    JoinNormals(c.normals, Outs(z, from, Completes, types), types);
  }

  lemma JoinNormals(states: seq<State>, from: iset<Avail>, types: Types)
    requires AllTraced(states, from, types)
    ensures JoinAll(states).Some? ==> Traced(JoinAll(states).value, from, types)
  {
    hide Traced, JoinAll;
    JoinAllTraced(states, from, types);
  }

  // ------------------------------------------------------------------ loops

  lemma WhilePicks(condition: Expr, body: seq<Stmt>, types: Types)
    ensures var (x, z) := (OfExpr(condition, true), OfWhile(condition, body));
            && Within(Then(x, Pick(0, 2, Leave(Completes))), z, types)
            && Within(Then(x, Pick(1, 2, Around(OfBlock(body), z))), z, types)
  {
    hide RunExpr, RunBlock;
    var (x, z) := (OfExpr(condition, true), OfWhile(condition, body));
    forall a, choices
      ensures WithinAt(Then(x, Pick(0, 2, Leave(Completes))), z, a, types, choices)
      ensures WithinAt(Then(x, Pick(1, 2, Around(OfBlock(body), z))), z, a, types, choices)
    {
      ExprFramed(condition, a, types, choices, [], true);
      ThenPickRuns(x, 0, 2, Leave(Completes), a, types, choices);
      ThenPickRuns(x, 1, 2, Around(OfBlock(body), z), a, types, choices);
      var v := RunExpr(condition, a, types, choices, true);
      if v.Done? && v.rest != [] {
        AroundRuns(OfBlock(body), z, v.avail, types, v.rest[1..]);
      }
    }
  }

  lemma BothSafe(x: Piece, a: iset<Avail>, b: iset<Avail>, to: iset<Avail>, types: Types)
    requires Safe(x, a, types) && Safe(x, b, types)
    requires Outs(x, a, Completes, types) <= to && Outs(x, b, Completes, types) <= to
    ensures Safe(x, a + b, types) && Outs(x, a + b, Completes, types) <= to
  {
    hide RunOf;
    forall d | d in Outs(x, a + b, Completes, types) ensures d in to {
      var c, choices := FromOuts(x, a + b, Completes, types, d);
      if c in a {
        InOuts(x, a, Completes, types, c, choices, d);
      } else {
        InOuts(x, b, Completes, types, c, choices, d);
      }
    }
  }

  /** The states around the back edge are backed by the runs that go around. */
  lemma NextHeadTraced(entry: State, f: Flow, from: iset<Avail>, types: Types)
    requires Traced(entry, from, types) && (f.normal.Some? ==> Traced(f.normal.value, from, types))
    requires AllTraced(f.continues, from, types)
    ensures Traced(NextHead(entry, f), from, types)
  {
    hide Traced, JoinAll, JoinFrom;
    ChainTraced(f.normal, None, from, types);
    AllTracedBoth(Chain(f.normal, None), f.continues, from, types);
    var back := JoinAll(Chain(f.normal, None) + f.continues);
    JoinAllTraced(Chain(f.normal, None) + f.continues, from, types);
    ChainTraced(back, None, from, types);
    JoinFromTraced(entry, Chain(back, None), from, types);
  }

  /** A pass around a loop: what it may be entered with next. */
  lemma AroundTraced(x: Piece, z: Piece, entered: iset<Avail>, head: iset<Avail>, f: Flow, to: iset<Avail>,
                     types: Types)
    requires Safe(Around(x, z), entered, types) && Outs(Around(x, z), entered, Completes, types) <= to
    requires FlowTraced(f, x, entered, types)
    requires Safe(z, head, types) && Outs(z, head, Completes, types) <= to
    ensures var back := Outs(x, entered, Completes, types) + Outs(x, entered, Continues, types);
            && Safe(z, head + back, types) && Outs(z, head + back, Completes, types) <= to
            && (f.normal.Some? ==> Traced(f.normal.value, head + back, types))
            && AllTraced(f.continues, head + back, types) && AllTraced(f.breaks, to, types)
  {
    hide Traced, RunOf, AllTraced, Outs, Safe;
    AroundSplits(x, z, entered, types);
    var back := Outs(x, entered, Completes, types) + Outs(x, entered, Continues, types);
    BothSafe(z, head, back, to, types);
    if f.normal.Some? {
      TracedMore(f.normal.value, Outs(x, entered, Completes, types), head + back, types);
    }
    AllTracedMore(f.continues, Outs(x, entered, Continues, types), head + back, types);
    AllTracedMore(f.breaks, Outs(x, entered, Breaks, types), to, types);
  }

  lemma {:induction false} WhilePassesExact(condition: Expr, body: seq<Stmt>, entry: State, head: State,
                                            breaks: seq<State>, n: nat, from: iset<Avail>, to: iset<Avail>,
                                            types: Types)
    requires TypesOk(types) && ExprOk(condition, types) && Fine(Performed(condition, true), types)
    requires BlockFit(body, types)
    requires Traced(entry, from, types) && Traced(head, from, types) && AllTraced(breaks, to, types)
    requires Safe(OfWhile(condition, body), from, types) && Outs(OfWhile(condition, body), from, Completes, types) <= to
    ensures WhilePasses(condition, body, entry, head, breaks, n, types).reports == []
    ensures Traced(WhilePasses(condition, body, entry, head, breaks, n, types).exit, to, types)
    decreases body, 1, n
  {
    hide Traced, Outs, Safe, Within, Fine, Visit, RunOf, CheckBlock, BlockFit, ExprOk, FlowTraced, NextHead, JoinFrom,
      AllTraced, Performed;
    var (x, y, z) := (OfExpr(condition, true), OfBlock(body), OfWhile(condition, body));
    WhilePicks(condition, body, types);
    InRowPick(x, 0, 2, Leave(Completes), z, from, types);
    InRowPick(x, 1, 2, Around(y, z), z, from, types);
    ExprExact(condition, head, from, types, true);
    var (v, entered) := (Visit(condition, head, types, true).state, Outs(x, from, Completes, types));
    Leaves(entered, Completes, types);
    assert entered <= to;
    TracedMore(v, entered, to, types);
    if n == 0 {
      JoinBreaks(v, breaks, to, types);
    } else {
      AroundSplits(y, z, entered, types);
      BlockExactly(body, v, entered, types);
      var f := CheckBlock(body, v, types).flow;
      AroundTraced(y, z, entered, from, f, to, types);
      AllTracedBoth(breaks, f.breaks, to, types);
      var next := from + (Outs(y, entered, Completes, types) + Outs(y, entered, Continues, types));
      TracedMore(entry, from, next, types);
      NextHeadTraced(entry, f, next, types);
      if NextHead(entry, f) == head {
        JoinBreaks(v, breaks + f.breaks, to, types);
      } else {
        WhilePassesExact(condition, body, entry, NextHead(entry, f), breaks + f.breaks, n - 1, next, to, types);
      }
    }
  }

  lemma JoinBreaks(v: State, breaks: seq<State>, to: iset<Avail>, types: Types)
    requires Traced(v, to, types) && AllTraced(breaks, to, types)
    ensures Traced(JoinFrom(v, breaks), to, types)
  {
    hide Traced, JoinFrom;
    JoinFromTraced(v, breaks, to, types);
  }

  lemma SameWhile(condition: Expr, body: seq<Stmt>, types: Types)
    ensures Within(OfWhile(condition, body), OfStmt(While(condition, body)), types)
  {
    hide RunWhile;
  }

  lemma {:induction false} WhileExact(s: Stmt, st: State, from: iset<Avail>, types: Types)
    requires s.While? && Traced(st, from, types) && TypesOk(types) && StmtFit(s, types) && Safe(OfStmt(s), from, types)
    ensures StmtExact(CheckStmt(s, st, types), OfStmt(s), from, types)
    decreases s, 0, 0
  {
    hide Traced, Outs, Safe, Within, Fine, RunOf, WhilePasses, AllTraced, BlockOk, BlockPlain, BlockUses, Performed;
    var (z, to) := (OfWhile(s.condition, s.body), Outs(OfStmt(s), from, Completes, types));
    FineBoth(Performed(s.condition, true), BlockUses(s.body), types);
    SameWhile(s.condition, s.body, types);
    Narrow(z, OfStmt(s), from, types);
    NoneTraced(to, types);
    NoneTraced(Outs(OfStmt(s), from, Breaks, types), types);
    NoneTraced(Outs(OfStmt(s), from, Continues, types), types);
    WhilePassesExact(s.condition, s.body, st, st, [], Bound(types) + 1, from, to, types);
  }

  lemma ForPicks(binding: Root, body: seq<Stmt>, types: Types)
    ensures var z := OfFor(binding, body);
            && Within(Pick(0, 2, Leave(Completes)), z, types)
            && Within(Pick(1, 2, Then(OfBinds([binding]), Around(OfBlock(body), z))), z, types)
  {
    hide RunBlock;
    var (z, x) := (OfFor(binding, body), OfBinds([binding]));
    forall a, choices
      ensures WithinAt(Pick(0, 2, Leave(Completes)), z, a, types, choices)
      ensures WithinAt(Pick(1, 2, Then(x, Around(OfBlock(body), z))), z, a, types, choices)
    {
      PickRuns(0, 2, Leave(Completes), a, types, choices);
      PickRuns(1, 2, Then(x, Around(OfBlock(body), z)), a, types, choices);
      if choices != [] {
        ThenRuns(x, Around(OfBlock(body), z), a, types, choices[1..]);
        AroundRuns(OfBlock(body), z, a + Below(binding, []), types, choices[1..]);
        BindsOne(binding, a);
      }
    }
  }

  lemma BindsOne(root: Root, a: Avail)
    ensures BindRoots([root], a) == a + Below(root, [])
  {
    assert [root][1..] == [];
  }

  lemma BindOne(root: Root, span: nat, st: State)
    ensures BindAll([root], span, st) == SetPlace(st, Place(root, []), Initialized(span))
  {
    assert [root][1..] == [];
  }

  lemma {:induction false} ForPassesExact(binding: Root, span: nat, body: seq<Stmt>, entry: State, head: State,
                                          breaks: seq<State>, n: nat, from: iset<Avail>, to: iset<Avail>, types: Types)
    requires TypesOk(types) && binding in types && BlockFit(body, types)
    requires Traced(entry, from, types) && Traced(head, from, types) && AllTraced(breaks, to, types)
    requires Safe(OfFor(binding, body), from, types) && Outs(OfFor(binding, body), from, Completes, types) <= to
    ensures ForPasses(binding, span, body, entry, head, breaks, n, types).reports == []
    ensures Traced(ForPasses(binding, span, body, entry, head, breaks, n, types).exit, to, types)
    decreases body, 1, n
  {
    hide Traced, Outs, Safe, Within, RunOf, CheckBlock, BlockFit, FlowTraced, NextHead, JoinFrom, AllTraced, SetPlace,
      BindAll;
    var (x, y, z) := (OfBinds([binding]), OfBlock(body), OfFor(binding, body));
    ForPicks(binding, body, types);
    Narrow(Pick(0, 2, Leave(Completes)), z, from, types);
    PickSplits(0, 2, Leave(Completes), from, types);
    Leaves(from, Completes, types);
    assert from <= to;
    TracedMore(head, from, to, types);
    if n == 0 {
      JoinBreaks(head, breaks, to, types);
    } else {
      Narrow(Pick(1, 2, Then(x, Around(y, z))), z, from, types);
      PickSplits(1, 2, Then(x, Around(y, z)), from, types);
      ThenSplits(x, Around(y, z), from, types);
      var entered := Outs(x, from, Completes, types);
      assert Outs(Around(y, z), entered, Completes, types) <= to;
      var v := SetPlace(head, Place(binding, []), Initialized(span));
      BindOne(binding, span, head);
      BindsExact([binding], span, head, from, types);
      AroundSplits(y, z, entered, types);
      BlockExactly(body, v, entered, types);
      var f := CheckBlock(body, v, types).flow;
      AroundTraced(y, z, entered, from, f, to, types);
      AllTracedBoth(breaks, f.breaks, to, types);
      var next := from + (Outs(y, entered, Completes, types) + Outs(y, entered, Continues, types));
      TracedMore(entry, from, next, types);
      NextHeadTraced(entry, f, next, types);
      if NextHead(entry, f) == head {
        JoinBreaks(head, breaks + f.breaks, to, types);
      } else {
        ForPassesExact(binding, span, body, entry, NextHead(entry, f), breaks + f.breaks, n - 1, next, to, types);
      }
    }
  }

  lemma ForInRow(s: Stmt, types: Types)
    requires s.For?
    ensures Within(Then(OfExpr(s.iterable, true), OfFor(s.binding, s.body)), OfStmt(s), types)
  {
    hide RunExpr, RunFor;
    var (x, y) := (OfExpr(s.iterable, true), OfFor(s.binding, s.body));
    forall a, choices ensures WithinAt(Then(x, y), OfStmt(s), a, types, choices) {
      ExprFramed(s.iterable, a, types, choices, [], true);
      ThenRuns(x, y, a, types, choices);
    }
  }

  lemma {:induction false} ForExact(s: Stmt, st: State, from: iset<Avail>, types: Types)
    requires s.For? && Traced(st, from, types) && TypesOk(types) && StmtFit(s, types) && Safe(OfStmt(s), from, types)
    ensures StmtExact(CheckStmt(s, st, types), OfStmt(s), from, types)
    decreases s, 0, 0
  {
    hide Traced, Outs, Safe, Within, Fine, Visit, RunOf, ForPasses, AllTraced, BlockOk, BlockPlain, BlockUses,
      Performed;
    var (x, z, to) := (OfExpr(s.iterable, true), OfFor(s.binding, s.body), Outs(OfStmt(s), from, Completes, types));
    FineBoth(Performed(s.iterable, true), BlockUses(s.body), types);
    ForInRow(s, types);
    InRow(x, z, OfStmt(s), from, types);
    ExprExact(s.iterable, st, from, types, true);
    var (v, mid) := (Visit(s.iterable, st, types, true).state, Outs(x, from, Completes, types));
    NoneTraced(to, types);
    NoneTraced(Outs(OfStmt(s), from, Breaks, types), types);
    NoneTraced(Outs(OfStmt(s), from, Continues, types), types);
    ForPassesExact(s.binding, s.span, s.body, v, v, [], Bound(types) + 1, mid, to, types);
  }

  // ------------------------------------------------------------------ functions

  /** Parameters and captures are there at the start of every run, and nothing else. */
  lemma InitiallyTraced(types: Types, given: set<Root>, spans: Root -> nat)
    ensures Traced(InitialState(types, given, spans), iset{InitialAvail(given)}, types)
  {
    var (st, from) := (InitialState(types, given, spans), iset{InitialAvail(given)});
    assert InitialAvail(given) in from;
    forall r, q | r in types && IsLeaf(types[r], q) ensures BackedAt(st, from, r, q) {
      LeafMeaning(st[r].transition, q);
    }
  }

  /** No run of the function goes wrong. */
  ghost predicate NeverUnsafe(body: seq<Stmt>, types: Types, given: set<Root>) {
    forall choices :: !RunBlock(body, InitialAvail(given), types, choices).Unsafe?
  }

  /** Move-check completeness: of a plain body that moves only what may be moved, a report means that
      some run uses a place of which a leaf is moved out or uninitialised. */
  lemma SafeIsAccepted(body: seq<Stmt>, types: Types, given: set<Root>, spans: Root -> nat)
    requires TypesOk(types) && BlockOk(body, types) && Plain(body) && MovesAllowed(BlockUses(body), types)
    requires NeverUnsafe(body, types, given)
    ensures CheckBlock(body, InitialState(types, given, spans), types).reports == []
  {
    hide Traced, CheckBlock, RunBlock, BlockOk, BlockPlain, TypesOk;
    InitiallyTraced(types, given, spans);
    var from := iset{InitialAvail(given)};
    forall a, choices | a in from ensures !RunOf(OfBlock(body), a, types, choices).Unsafe? {
      assert !RunBlock(body, InitialAvail(given), types, choices).Unsafe?;
    }
    BlockExactly(body, InitialState(types, given, spans), from, types);
  }

  /** What the move checker accepts, exactly: the plain bodies that move only what may be moved and of
      which no run goes wrong. */
  lemma AcceptedExactly(body: seq<Stmt>, types: Types, given: set<Root>, spans: Root -> nat)
    requires TypesOk(types) && BlockOk(body, types) && Plain(body) && GuardsKeep(body)
    ensures CheckBlock(body, InitialState(types, given, spans), types).reports == [] <==>
              MovesAllowed(BlockUses(body), types) && NeverUnsafe(body, types, given)
  {
    hide CheckBlock, RunBlock, BlockOk, Plain, TypesOk, GuardsKeep, MovesAllowed, InitialState, InitialAvail;
    if CheckBlock(body, InitialState(types, given, spans), types).reports == [] {
      BlockVisited(body, InitialState(types, given, spans), types);
      forall choices ensures !RunBlock(body, InitialAvail(given), types, choices).Unsafe? {
        AcceptedIsSafe(body, types, given, spans, choices);
      }
    }
    if MovesAllowed(BlockUses(body), types) && NeverUnsafe(body, types, given) {
      SafeIsAccepted(body, types, given, spans);
    }
  }

  /** A statement that uses one place and does nothing else. */
  function UseOnly(u: Use): Stmt {
    Eval(Expr(All([]), [u]))
  }

  lemma UseOnlyMeans(u: Use, st: State, a: Avail, types: Types, choices: seq<nat>)
    ensures BlockUses([UseOnly(u)]) == [u] && (PlaceOk(u.place, types) ==> BlockOk([UseOnly(u)], types))
    ensures GuardsKeep([UseOnly(u)]) && StmtPlain(UseOnly(u))
    ensures CheckStmt(UseOnly(u), st, types).reports == VisitUse(u, st, types).reports
    ensures DeadReports([UseOnly(u)], st, types) == VisitUse(u, st, types).reports
    ensures RunUse(u, a, types, choices).Done? ==> !RunBlock([UseOnly(u)], a, types, choices).Unsafe?
  {
    var none: seq<Expr> := [];
    var rest: seq<Stmt> := [];
    var uses: seq<Use> := [];
    var e := Expr(All(none), [u]);
    var s := Eval(e);
    assert s == UseOnly(u) && [u][1..] == uses && [s][1..] == rest;
    assert GuardsKeep(rest) && BlockOk(rest, types);
    assert OperandsOk(e.operands, types) == ExprsOk(none, types) == true;
    assert PlaceOk(u.place, types) ==> StmtOk(s, types);
    assert PerformedOperands(e.operands) == PerformedAll(none) == uses;
    assert Performed(e, true) == uses + [u];
    assert BlockUses([s]) == StmtUses(s) + BlockUses(rest) == [u];
    var v := VisitUse(u, st, types);
    assert VisitUses([u], st, types) == Visited(VisitUses(uses, v.state, types).state, v.reports + []);
    assert VisitOperands(e.operands, st, types) == VisitAll(none, st, types) == Visited(st, []);
    assert CheckStmt(s, st, types).reports == [] + VisitUses([u], st, types).reports;
    assert DeadReports([s], st, types) == CheckStmt(s, st, types).reports + DeadReports(rest, v.state, types);
    var r := RunUse(u, a, types, choices);
    if r.Done? {
      assert RunUses([u], a, types, choices) == RunUses(uses, r.avail, types, r.rest);
      assert RunOperands(e.operands, a, types, choices) == RunAll(none, a, types, choices)
          == Done(Completes, a, choices);
      assert RunStmt(s, a, types, choices) == Done(Completes, r.avail, r.rest);
      assert RunBlock([s], a, types, choices) == RunBlock(rest, r.avail, types, r.rest);
    }
  }

  /** A statement and one that uses a place. */
  lemma PairMeans(s: Stmt, u: Use, st: State, types: Types)
    requires StmtOk(s, types) && StmtGuardsKeep(s) && StmtUses(s) == [] && PlaceOk(u.place, types) && !u.moves
    ensures var body := [s, UseOnly(u)];
            && BlockOk(body, types) && GuardsKeep(body) && BlockUses(body) == [u]
            && MovesAllowed(BlockUses(body), types)
            && (BlockPlain(body) ==> StmtPlain(s) && MayEnd(s))
            && (if CheckStmt(s, st, types).flow.normal.Some? then
                  CheckBlock(body, st, types).reports == CheckStmt(s, st, types).reports
                    + CheckBlock([UseOnly(u)], CheckStmt(s, st, types).flow.normal.value, types).reports
                else
                  var c := CheckStmt(s, st, types);
                  var dead := if c.flow.dead.Some? then c.flow.dead.value else st;
                  CheckBlock(body, st, types).reports == c.reports + DeadReports([UseOnly(u)], dead, types))
  {
    hide UseOnly, CheckStmt, StmtOk, StmtUses, StmtPlain, StmtGuardsKeep, MayEnd, RunUse, VisitUse;
    UseOnlyMeans(u, st, InitialAvail({}), types, []);
    var body := [s, UseOnly(u)];
    assert body[1..] == [UseOnly(u)];
    assert BlockUses(body) == [] + [u];
  }

  /** Why statements that are never reached are excepted: they are checked all the same. */
  lemma UnreachedReported(spans: Root -> nat)
    ensures var (types, u) := (map[Local(0) := Scalar], Use(false, Place(Local(0), []), 1));
            var body := [Return([]), UseOnly(u)];
            && TypesOk(types) && BlockOk(body, types) && GuardsKeep(body) && MovesAllowed(BlockUses(body), types)
            && NoRuntimeIndex(BlockUses(body)) && !BlockPlain(body) && NeverUnsafe(body, types, {})
            && CheckBlock(body, InitialState(types, {}, spans), types).reports != []
  {
    hide UseOnly, BlockOk, GuardsKeep, BlockUses, MovesAllowed, BlockPlain, CheckBlock, DeadReports;
    var (types, u) := (map[Local(0) := Scalar], Use(false, Place(Local(0), []), 1));
    var (body, st) := ([Return([]), UseOnly(u)], InitialState(types, {}, spans));
    UseOnlyMeans(u, st, InitialAvail({}), types, []);
    PairMeans(Return([]), u, st, types);
    assert CheckStmt(Return([]), st, types) == Checked(Flow(None, Some(st), [], []), []);
    forall choices ensures !RunBlock(body, InitialAvail({}), types, choices).Unsafe? {
      assert RunStmt(Return([]), InitialAvail({}), types, choices) == Done(Returns, InitialAvail({}), choices);
    }
  }

  /** Why run-time indices are excepted: `a[i] = x` fills the only element of `a`, and `a` is refused. */
  lemma IndexReported(spans: Root -> nat)
    ensures var (types, u) := (map[Local(0) := Array(Scalar, 1)], Use(false, Place(Local(0), []), 2));
            var body := [FillAny(), UseOnly(u)];
            && TypesOk(types) && BlockOk(body, types) && GuardsKeep(body) && MovesAllowed(BlockUses(body), types)
            && !BlockPlain(body) && NeverUnsafe(body, types, {})
            && CheckBlock(body, InitialState(types, {}, spans), types).reports != []
  {
    hide UseOnly, Available, BlockOk, GuardsKeep, BlockUses, MovesAllowed, BlockPlain, CheckBlock, DeadReports,
      RunBlock, CheckStmt;
    var (types, u) := (map[Local(0) := Array(Scalar, 1)], Use(false, Place(Local(0), []), 2));
    var (body, st) := ([FillAny(), UseOnly(u)], InitialState(types, {}, spans));
    FillAnyMeans(st, types);
    PairMeans(FillAny(), u, st, types);
    var after := SetPlace(st, Place(Local(0), [DynamicIndex]), Initialized(1));
    UseOnlyMeans(u, after, InitialAvail({}), types, []);
    FilledRefused(after[Local(0)], spans(Local(0)));
    OneStatement(u, after, types);
    forall choices ensures !RunBlock(body, InitialAvail({}), types, choices).Unsafe? {
      FilledRun(types, u, choices);
    }
  }

  lemma OneStatement(u: Use, st: State, types: Types)
    requires CheckStmt(UseOnly(u), st, types).reports != []
    ensures CheckBlock([UseOnly(u)], st, types).reports != []
  {
    hide UseOnly, CheckStmt;
  }

  lemma FillAnyMeans(st: State, types: Types)
    requires types == map[Local(0) := Array(Scalar, 1)]
    ensures StmtOk(FillAny(), types) && StmtGuardsKeep(FillAny()) && StmtUses(FillAny()) == [] && !StmtPlain(FillAny())
    ensures CheckStmt(FillAny(), st, types)
         == Checked(Normal(SetPlace(st, Place(Local(0), [DynamicIndex]), Initialized(1))), [])
  {
  }

  /** `a[i] = x`. */
  function FillAny(): Stmt {
    Assign(Place(Local(0), [DynamicIndex]), [], false, Expr(All([]), []), 1)
  }

  lemma FilledRefused(n: Node, span: nat)
    requires n == Set(Leaf(Uninitialized(span)), [DynamicIndex], Initialized(1))
    ensures !Available(n, Array(Scalar, 1))
  {
    AllIndices(n, 1);
    assert DynamicIndex in n.children.Keys && DynamicIndex !in Indices(1);
  }

  lemma FilledRun(types: Types, u: Use, choices: seq<nat>)
    requires types == map[Local(0) := Array(Scalar, 1)] && u == Use(false, Place(Local(0), []), 2)
    ensures !RunBlock([FillAny(), UseOnly(u)], InitialAvail({}), types, choices).Unsafe?
  {
    hide UseOnly;
    var (ty, p, a, s) := (Array(Scalar, 1), [DynamicIndex], InitialAvail({}), FillAny());
    var none: seq<Expr> := [];
    assert [s, UseOnly(u)][1..] == [UseOnly(u)] && p[1..] == [];
    assert RunAll(none, a, types, choices) == Done(Completes, a, choices);
    assert RunExpr(s.value, a, types, choices, true) == Done(Completes, a, choices);
    assert RunStmt(s, a, types, choices) == RunWrite(s.place, false, a, types, choices);
    if choices != [] {
      assert Resolve(Scalar, [], choices[1..]) == Some(([], choices[1..]));
      assert Resolve(ty, p, choices) == Some(([ConstantIndex(0)] + [], choices[1..]));
      var b := a + Below(Local(0), [ConstantIndex(0)] + []);
      assert RunStmt(s, a, types, choices) == Done(Completes, b, choices[1..]);
      forall l | IsLeaf(ty, l) ensures Loc(Local(0), l) in b {
        assert l[0] == ConstantIndex(0) && [ConstantIndex(0)] + [] <= l;
      }
      assert RunUse(u, b, types, choices[1..]) == Done(Completes, b, choices[1..]);
      UseOnlyMeans(u, InitialState(types, {}, r => 0), b, types, choices[1..]);
    }
  }
}
