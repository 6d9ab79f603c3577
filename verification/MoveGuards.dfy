/** What a match guard may do.  A failed guard passes control to the next arm, which the checker
    examines from the state before the first arm (src/check/moves.rs:491-496), so a guard that moves
    something goes unnoticed there; nothing else does.
 */
module MoveGuards {
  import opened MoveCheck
  import opened MoveRun
  import opened MoveTree
  import opened MoveTypes
  import opened Wrappers

  // ------------------------------------------------------------------ evaluating every part

  /** The choices that evaluate both sides of every logical operator. */
  function Ones(n: nat): seq<nat> {
    seq(n, _ => 1)
  }

  lemma OnesSplit(m: nat, n: nat, rest: seq<nat>)
    ensures Ones(m + n) + rest == Ones(m) + (Ones(n) + rest)
    ensures Ones(0) + rest == rest
    ensures n > 0 ==> Ones(n) + rest == [1] + (Ones(n - 1) + rest)
  {
  }

  function Dynamics(p: Path): nat {
    if p == [] then 0 else (if p[0] == DynamicIndex then 1 else 0) + Dynamics(p[1..])
  }

  function NeedUses(us: seq<Use>): nat {
    if us == [] then 0 else Dynamics(us[0].place.path) + NeedUses(us[1..])
  }

  function Need(e: Expr, own: bool): nat
    decreases e, 1
  {
    NeedOperands(e.operands) + if own then NeedUses(e.uses) else 0
  }

  function NeedOperands(o: Operands): nat
    decreases o, 1
  {
    match o
    case All(parts) => NeedAll(parts)
    case Logical(left, right) => Need(left, true) + (1 + Need(right, true))
    case PartOf(base, index) => Need(base, false) + NeedAll(index)
  }

  function NeedAll(es: seq<Expr>): nat
    decreases es, 0
  {
    if es == [] then 0 else Need(es[0], true) + NeedAll(es[1..])
  }

  /** The run got through, spent only its choices, gave nothing back and lost all that was moved. */
  ghost predicate Through(us: seq<Use>, a: Avail, r: Run, rest: seq<nat>) {
    !r.Cut? && (r.Done? ==> r.rest == rest && r.avail <= a && Gone(us, r.avail))
  }

  ghost predicate Gone(us: seq<Use>, a: Avail) {
    forall u, l :: u in us && u.moves && DynamicIndex !in u.place.path && u.place.path <= l ==>
      Loc(u.place.root, l) !in a
  }

  lemma GoneBoth(us: seq<Use>, vs: seq<Use>, a: Avail, b: Avail)
    requires Gone(us, a) && Gone(vs, b) && b <= a
    ensures Gone(us + vs, b)
  {
  }

  lemma {:induction false} ResolveThrough(ty: Ty, p: Path, rest: seq<nat>)
    ensures var r := Resolve(ty, p, Ones(Dynamics(p)) + rest);
            r.Some? && r.value.1 == rest
    decreases |p|
  {
    OnesSplit(0, Dynamics(p), rest);
    if p != [] {
      ResolveThrough(if Project(ty, p[0]).Some? then Project(ty, p[0]).value else ty, p[1..], rest);
    }
  }

  lemma UseThrough(u: Use, a: Avail, types: Types, rest: seq<nat>)
    requires u.place.root in types
    ensures Through([u], a, RunUse(u, a, types, Ones(Dynamics(u.place.path)) + rest), rest)
  {
    hide Resolve;
    ResolveThrough(types[u.place.root], u.place.path, rest);
  }

  lemma {:induction false} UsesThrough(us: seq<Use>, a: Avail, types: Types, rest: seq<nat>)
    requires UsesOk(us, types)
    ensures Through(us, a, RunUses(us, a, types, Ones(NeedUses(us)) + rest), rest)
  {
    hide RunUse;
    OnesSplit(0, 0, rest);
    if us != [] {
      var more := Ones(NeedUses(us[1..])) + rest;
      OnesSplit(Dynamics(us[0].place.path), NeedUses(us[1..]), rest);
      UseThrough(us[0], a, types, more);
      var first := RunUse(us[0], a, types, Ones(Dynamics(us[0].place.path)) + more);
      if first.Done? {
        UsesThrough(us[1..], first.avail, types, rest);
        var second := RunUses(us[1..], first.avail, types, more);
        if second.Done? {
          assert us == [us[0]] + us[1..];
          GoneBoth([us[0]], us[1..], first.avail, second.avail);
        }
      }
    }
  }

  lemma {:induction false} ExprThrough(e: Expr, a: Avail, types: Types, rest: seq<nat>, own: bool)
    requires ExprOk(e, types)
    ensures Through(Performed(e, own), a, RunExpr(e, a, types, Ones(Need(e, own)) + rest, own), rest)
    decreases e, 1
  {
    hide RunUses, RunOperands, Gone;
    var more := if own then Ones(NeedUses(e.uses)) + rest else rest;
    OnesSplit(NeedOperands(e.operands), if own then NeedUses(e.uses) else 0, rest);
    OnesSplit(0, 0, rest);
    OperandsThrough(e.operands, a, types, more);
    var inner := RunOperands(e.operands, a, types, Ones(NeedOperands(e.operands)) + more);
    if inner.Done? {
      if own {
        UsesThrough(e.uses, inner.avail, types, rest);
        var outer := RunUses(e.uses, inner.avail, types, more);
        if outer.Done? {
          GoneBoth(PerformedOperands(e.operands), e.uses, inner.avail, outer.avail);
        }
      } else {
        assert Performed(e, own) == PerformedOperands(e.operands);
      }
    }
  }

  lemma {:induction false} OperandsThrough(o: Operands, a: Avail, types: Types, rest: seq<nat>)
    requires OperandsOk(o, types)
    ensures Through(PerformedOperands(o), a, RunOperands(o, a, types, Ones(NeedOperands(o)) + rest), rest)
    decreases o, 1
  {
    hide RunExpr, RunAll, Gone;
    match o
    case All(parts) => AllThrough(parts, a, types, rest);
    case Logical(left, right) =>
      var last := Ones(Need(right, true)) + rest;
      OnesSplit(Need(left, true), 1 + Need(right, true), rest);
      OnesSplit(0, 1 + Need(right, true), rest);
      ExprThrough(left, a, types, [1] + last, true);
      var first := RunExpr(left, a, types, Ones(Need(left, true)) + ([1] + last), true);
      if first.Done? {
        assert ([1] + last)[1..] == last;
        ExprThrough(right, first.avail, types, rest, true);
        var second := RunExpr(right, first.avail, types, last, true);
        if second.Done? {
          GoneBoth(Performed(left, true), Performed(right, true), first.avail, second.avail);
        }
      }
    case PartOf(base, index) =>
      var more := Ones(NeedAll(index)) + rest;
      OnesSplit(Need(base, false), NeedAll(index), rest);
      ExprThrough(base, a, types, more, false);
      var first := RunExpr(base, a, types, Ones(Need(base, false)) + more, false);
      if first.Done? {
        AllThrough(index, first.avail, types, rest);
        var second := RunAll(index, first.avail, types, more);
        if second.Done? {
          GoneBoth(Performed(base, false), PerformedAll(index), first.avail, second.avail);
        }
      }
  }

  lemma {:induction false} AllThrough(es: seq<Expr>, a: Avail, types: Types, rest: seq<nat>)
    requires ExprsOk(es, types)
    ensures Through(PerformedAll(es), a, RunAll(es, a, types, Ones(NeedAll(es)) + rest), rest)
    decreases es, 0
  {
    hide RunExpr;
    OnesSplit(0, 0, rest);
    if es != [] {
      var more := Ones(NeedAll(es[1..])) + rest;
      OnesSplit(Need(es[0], true), NeedAll(es[1..]), rest);
      ExprThrough(es[0], a, types, more, true);
      var first := RunExpr(es[0], a, types, Ones(Need(es[0], true)) + more, true);
      if first.Done? {
        AllThrough(es[1..], first.avail, types, rest);
        var second := RunAll(es[1..], first.avail, types, more);
        if second.Done? {
          GoneBoth(Performed(es[0], true), PerformedAll(es[1..]), first.avail, second.avail);
        }
      }
    }
  }

  // ------------------------------------------------------------------ accepted moves name their place

  predicate Static(us: seq<Use>) {
    forall u :: u in us && u.moves ==> DynamicIndex !in u.place.path
  }

  lemma {:induction false} UsesStatic(us: seq<Use>, st: State, types: Types)
    requires UsesOk(us, types) && VisitUses(us, st, types).reports == []
    ensures Static(us)
  {
    if us != [] {
      if us[0].moves {
        IndexedMoveDynamic(types[us[0].place.root], us[0].place.path);
      }
      UsesStatic(us[1..], VisitUse(us[0], st, types).state, types);
    }
  }

  lemma {:induction false} ExprStatic(e: Expr, st: State, types: Types, own: bool)
    requires ExprOk(e, types) && Visit(e, st, types, own).reports == []
    ensures Static(Performed(e, own))
    decreases e, 1
  {
    hide VisitUses;
    OperandsStatic(e.operands, st, types);
    if own {
      UsesStatic(e.uses, VisitOperands(e.operands, st, types).state, types);
    }
  }

  lemma {:induction false} OperandsStatic(o: Operands, st: State, types: Types)
    requires OperandsOk(o, types) && VisitOperands(o, st, types).reports == []
    ensures Static(PerformedOperands(o))
    decreases o, 1
  {
    match o
    case All(parts) => AllStatic(parts, st, types);
    case Logical(left, right) =>
      ExprStatic(left, st, types, true);
      ExprStatic(right, Visit(left, st, types, true).state, types, true);
    case PartOf(base, index) =>
      ExprStatic(base, st, types, false);
      AllStatic(index, Visit(base, st, types, false).state, types);
  }

  lemma {:induction false} AllStatic(es: seq<Expr>, st: State, types: Types)
    requires ExprsOk(es, types) && VisitAll(es, st, types).reports == []
    ensures Static(PerformedAll(es))
    decreases es, 0
  {
    if es != [] {
      ExprStatic(es[0], st, types, true);
      AllStatic(es[1..], Visit(es[0], st, types, true).state, types);
    }
  }

  // ------------------------------------------------------------------ every type has a leaf

  lemma {:induction false} SomeLeaf(ty: Ty) returns (l: Path)
    requires WellSized(ty)
    ensures IsLeaf(ty, l)
  {
    match ty
    case Scalar => l := [];
    case Array(element, length) =>
      var m := SomeLeaf(element);
      l := [ConstantIndex(0)] + m;
    case Tuple(elements) =>
      if elements == [] {
        l := [];
      } else {
        var m := SomeLeaf(elements[0]);
        l := [TupleField(0)] + m;
        assert Parts(ty)[0] == (TupleField(0), elements[0]);
      }
    case Struct(fields) =>
      if fields == [] {
        l := [];
      } else {
        var m := SomeLeaf(fields[0]);
        l := [Field(0)] + m;
        assert Parts(ty)[0] == (Field(0), fields[0]);
      }
  }

  lemma {:induction false} LeafUnder(ty: Ty, p: Path) returns (l: Path)
    requires WellSized(ty) && ValidPath(ty, p) && DynamicIndex !in p
    ensures IsLeaf(ty, l) && p <= l
    decreases |p|
  {
    if p == [] {
      l := SomeLeaf(ty);
    } else {
      var sub := Project(ty, p[0]).value;
      PartWellSized(ty, p[0]);
      var m := LeafUnder(sub, p[1..]);
      l := [p[0]] + m;
      assert p == [p[0]] + p[1..];
      assert l[1..] == m;
      if !ty.Array? {
        HasParts(ty, p[0]);
      }
    }
  }

  lemma PartWellSized(ty: Ty, k: Projection)
    requires WellSized(ty) && Project(ty, k).Some?
    ensures WellSized(Project(ty, k).value)
  {
  }

  lemma HasParts(ty: Ty, k: Projection)
    requires Project(ty, k).Some? && !ty.Array?
    ensures Parts(ty) != []
  {
  }

  lemma {:induction false} LeafValid(ty: Ty, l: Path)
    requires IsLeaf(ty, l)
    ensures ValidPath(ty, l)
    decreases |l|
  {
    if l != [] {
      LeafValid(Project(ty, l[0]).value, l[1..]);
    }
  }

  // ------------------------------------------------------------------ the least match with a guard

  function Nothing(): Expr {
    Expr(All([]), [])
  }

  /** `match` with an empty arm under the guard, and an arm that uses the place. */
  function Trial(guard: Expr, place: Place, span: nat): seq<Stmt> {
    [Match(Nothing(), [Arm([], [guard], []), Arm([], [], [Eval(Expr(All([]), [Use(false, place, span)]))])])]
  }

  /** Everything is initialised. */
  function Everything(types: Types, spans: Root -> nat): State {
    InitialState(types, types.Keys, spans)
  }

  ghost predicate Accepted(body: seq<Stmt>, types: Types, spans: Root -> nat) {
    BlockOk(body, types) && CheckBlock(body, Everything(types, spans), types).reports == []
  }

  ghost predicate Safe(body: seq<Stmt>, types: Types) {
    forall choices :: !RunBlock(body, InitialAvail(types.Keys), types, choices).Unsafe?
  }

  lemma UseOfInitialized(root: Root, l: Path, types: Types, spans: Root -> nat)
    requires TypesOk(types) && root in types && IsLeaf(types[root], l)
    ensures PlaceOk(Place(root, l), types) && Usable(Everything(types, spans), types, Place(root, l))
  {
    hide NodeAt, Available, PlaceAvailable, TypeAt, DynamicsInitialized;
    var ty, n := types[root], Leaf(Initialized(spans(root)));
    LeafValid(ty, l);
    LeafHasNoDynamic(ty, l);
    BaseValid(ty, l);
    PlaceAvailableExact(n, ty, l);
    forall q | IsLeaf(TypeAt(ty, Base(l)), q) ensures Lookup(n, Base(l) + q).Initialized? {
      LeafMeaning(n.transition, Base(l) + q);
    }
    assert NoDynamic(n);
  }

  /** The arm that uses the place draws no report. */
  lemma UseAccepted(root: Root, l: Path, types: Types, spans: Root -> nat)
    requires TypesOk(types) && root in types && IsLeaf(types[root], l)
    ensures var arm := Arm([], [], [Eval(Expr(All([]), [Use(false, Place(root, l), 0)]))]);
            CheckArms([arm], Everything(types, spans), types).reports == [] && ArmsOk([arm], types)
  {
    hide Usable, InitialState;
    var st := Everything(types, spans);
    UseOfInitialized(root, l, types, spans);
    var u := Use(false, Place(root, l), 0);
    var use := Expr(All([]), [u]);
    var arm := Arm([], [], [Eval(use)]);
    assert VisitUses([u], st, types).reports == [];
    assert Visit(use, st, types, true).reports == [];
    assert CheckStmt(Eval(use), st, types).reports == [];
    assert CheckBlock([], st, types).reports == [];
    assert CheckBlock([Eval(use)], st, types).reports == [];
    assert [arm][1..] == [] && CheckArms([arm][1..], st, types).reports == [];
    assert UsesOk([u], types) && ExprOk(use, types);
    assert StmtOk(Eval(use), types) && BlockOk([Eval(use)], types);
    assert ArmsOk([arm][1..], types);
  }

  lemma TrialAccepted(guard: Expr, root: Root, l: Path, types: Types, spans: Root -> nat)
    requires TypesOk(types) && ExprOk(guard, types) && root in types && IsLeaf(types[root], l)
    requires Visit(guard, Everything(types, spans), types, true).reports == []
    ensures Accepted(Trial(guard, Place(root, l), 0), types, spans)
  {
    hide Usable, InitialState, ExprOk, VisitOperands, VisitUses;
    var st := Everything(types, spans);
    UseAccepted(root, l, types, spans);
    var trial := Trial(guard, Place(root, l), 0)[0];
    var arms := trial.arms;
    assert arms[1..] == [arms[1]];
    GuardAccepted(guard, arms, st, types);
    NothingAccepted(st, types);
    assert CheckStmt(trial, st, types).reports == [];
    TrialReports(guard, Place(root, l), st, types);
    assert StmtOk(trial, types) && BlockOk(Trial(guard, Place(root, l), 0)[1..], types);
  }

  lemma {:induction false} GuardAccepted(guard: Expr, arms: seq<Arm>, st: State, types: Types)
    requires arms != [] && arms[0] == Arm([], [guard], []) && ExprOk(guard, types)
    requires Visit(guard, st, types, true).reports == []
    requires CheckArms(arms[1..], st, types).reports == [] && ArmsOk(arms[1..], types)
    ensures CheckArms(arms, st, types).reports == [] && ArmsOk(arms, types)
  {
    hide Visit, ExprOk;
    assert VisitAll([guard], st, types).reports == [];
    assert ExprsOk([guard], types);
  }

  lemma NothingAccepted(st: State, types: Types)
    ensures Visit(Nothing(), st, types, true) == Visited(st, []) && ExprOk(Nothing(), types)
  {
  }

  lemma TrialReports(guard: Expr, place: Place, st: State, types: Types)
    requires CheckStmt(Trial(guard, place, 0)[0], st, types).reports == []
    ensures CheckBlock(Trial(guard, place, 0), st, types).reports == []
  {
    hide CheckStmt;
    var body := Trial(guard, place, 0);
    assert body[1..] == [];
  }

  /** The run of the trial in which the guard loses the place and then fails. */
  lemma TrialUnsafe(guard: Expr, root: Root, l: Path, types: Types, choices: seq<nat>)
    requires root in types && IsLeaf(types[root], l)
    requires var r := RunExpr(guard, InitialAvail(types.Keys), types, choices, true);
             r.Done? && r.rest == [0, 1] && Loc(root, l) !in r.avail
    ensures RunBlock(Trial(guard, Place(root, l), 0), InitialAvail(types.Keys), types, [1] + choices).Unsafe?
  {
    hide RunExpr, RolledBack, Resolve;
    var a := InitialAvail(types.Keys);
    var g := RunExpr(guard, a, types, choices, true);
    var back := RolledBack([], a, a, g.avail);
    var use := Eval(Expr(All([]), [Use(false, Place(root, l), 0)]));
    var arms := [Arm([], [guard], []), Arm([], [], [use])];
    LosesPlace(root, l, a, g.avail);
    UseUnsafe(root, l, back, types);
    assert RunArms(arms[1..], back, types, [1]) == RunBlock([use], back, types, []) by {
      assert RunPattern([], back, types, []) == Done(Completes, back, []);
    }
    assert RunAll([guard], a, types, choices) == Done(Completes, g.avail, [0, 1]);
    assert RunArms(arms, a, types, [1] + choices) == RunArms(arms[1..], back, types, [1]) by {
      assert ([1] + choices)[1..] == choices;
      assert RunPattern([], a, types, choices) == Done(Completes, a, choices);
    }
    NothingRuns(a, types, [1] + choices);
    assert RunStmt(Match(Nothing(), arms), a, types, [1] + choices) == RunArms(arms, a, types, [1] + choices);
  }

  lemma LosesPlace(root: Root, l: Path, a: Avail, after: Avail)
    requires Loc(root, l) in a && Loc(root, l) !in after
    ensures Loc(root, l) !in RolledBack([], a, a, after)
  {
  }

  lemma NothingRuns(a: Avail, types: Types, choices: seq<nat>)
    ensures RunExpr(Nothing(), a, types, choices, true) == Done(Completes, a, choices)
  {
  }

  lemma {:induction false} ResolveStatic(ty: Ty, p: Path, choices: seq<nat>)
    requires DynamicIndex !in p
    ensures Resolve(ty, p, choices) == Some((p, choices))
    decreases |p|
  {
    if p != [] {
      ResolveStatic(if Project(ty, p[0]).Some? then Project(ty, p[0]).value else ty, p[1..], choices);
      assert p == [p[0]] + p[1..];
    }
  }

  lemma UseUnsafe(root: Root, l: Path, a: Avail, types: Types)
    requires root in types && IsLeaf(types[root], l) && Loc(root, l) !in a
    ensures RunBlock([Eval(Expr(All([]), [Use(false, Place(root, l), 0)]))], a, types, []).Unsafe?
  {
    var u := Use(false, Place(root, l), 0);
    LeafHasNoDynamic(types[root], l);
    var none: seq<nat> := [];
    assert Resolve(types[root], l, none) == Some((l, none)) by {
      ResolveStatic(types[root], l, none);
    }
    assert !LeavesHeld(a, types, root, l);
    assert RunUse(u, a, types, []).Unsafe?;
    assert RunUses([u], a, types, []).Unsafe?;
    assert RunOperands(All([]), a, types, []) == Done(Completes, a, []);
    assert RunExpr(Expr(All([]), [u]), a, types, [], true).Unsafe?;
    assert RunStmt(Eval(Expr(All([]), [u])), a, types, []).Unsafe?;
  }

  /** Where the checker is right about a guard: a guard that is accepted when everything is initialised
      moves nothing exactly when every accepted trial with it is safe.  So `GuardsKeep`, under which
      accepted bodies are safe, asks of a guard no more than it must. */
  lemma GuardsExactly(guard: Expr, types: Types, spans: Root -> nat)
    requires TypesOk(types) && ExprOk(guard, types)
    requires Visit(guard, Everything(types, spans), types, true).reports == []
    ensures MovesNothing(Performed(guard, true)) <==>
              forall place, span :: Accepted(Trial(guard, place, span), types, spans) ==>
                                      Safe(Trial(guard, place, span), types)
  {
    if MovesNothing(Performed(guard, true)) {
      forall place, span | Accepted(Trial(guard, place, span), types, spans)
        ensures Safe(Trial(guard, place, span), types)
      {
        QuietIsSafe(guard, place, span, types, spans);
      }
    } else {
      var u :| u in Performed(guard, true) && u.moves;
      var l := MovedLeaf(guard, u, types, spans);
      TrialAccepted(guard, u.place.root, l, types, spans);
      assert !Safe(Trial(guard, Place(u.place.root, l), 0), types) by {
        TrialUnsafe(guard, u.place.root, l, types, Ones(Need(guard, true)) + [0, 1]);
      }
    }
  }

  lemma QuietIsSafe(guard: Expr, place: Place, span: nat, types: Types, spans: Root -> nat)
    requires TypesOk(types) && MovesNothing(Performed(guard, true))
    requires Accepted(Trial(guard, place, span), types, spans)
    ensures Safe(Trial(guard, place, span), types)
  {
    var body := Trial(guard, place, span);
    assert PerformedAll([guard]) == Performed(guard, true);
    var arms := body[0].arms;
    assert StmtGuardsKeep(arms[1].body[0]) && GuardsKeep(arms[1].body[1..]);
    assert GuardsKeep(arms[1].body);
    assert ArmGuardsKeep(arms[1..][1..]);
    assert ArmGuardsKeep(arms[1..]);
    assert StmtGuardsKeep(body[0]) && GuardsKeep(body[1..]);
    forall choices ensures !RunBlock(body, InitialAvail(types.Keys), types, choices).Unsafe? {
      AcceptedIsSafe(body, types, types.Keys, spans, choices);
    }
  }

  /** A leaf that the guard's run loses. */
  lemma MovedLeaf(guard: Expr, u: Use, types: Types, spans: Root -> nat) returns (l: Path)
    requires TypesOk(types) && ExprOk(guard, types) && u in Performed(guard, true) && u.moves
    requires Visit(guard, Everything(types, spans), types, true).reports == []
    ensures u.place.root in types && IsLeaf(types[u.place.root], l)
    ensures var r := RunExpr(guard, InitialAvail(types.Keys), types, Ones(Need(guard, true)) + [0, 1], true);
            r.Done? && r.rest == [0, 1] && Loc(u.place.root, l) !in r.avail
  {
    hide RunExpr, Visit, Performed, Need;
    var st, a := Everything(types, spans), InitialAvail(types.Keys);
    var choices := Ones(Need(guard, true)) + [0, 1];
    EverythingBelieved(types, spans);
    ExprSafe(guard, st, a, types, choices, true);
    ExprThrough(guard, a, types, [0, 1], true);
    ExprStatic(guard, st, types, true);
    PerformedOk(guard, types, true);
    l := LeafUnder(types[u.place.root], u.place.path);
  }

  lemma EverythingBelieved(types: Types, spans: Root -> nat)
    ensures StateOk(Everything(types, spans), types)
    ensures Believes(Everything(types, spans), InitialAvail(types.Keys), types)
  {
  }

  lemma {:induction false} PerformedOk(e: Expr, types: Types, own: bool)
    requires ExprOk(e, types)
    ensures UsesOk(Performed(e, own), types)
    decreases e, 1
  {
    match e.operands
    case All(parts) => PerformedAllOk(parts, types);
    case Logical(left, right) =>
      PerformedOk(left, types, true);
      PerformedOk(right, types, true);
    case PartOf(base, index) =>
      PerformedOk(base, types, false);
      PerformedAllOk(index, types);
  }

  lemma {:induction false} PerformedAllOk(es: seq<Expr>, types: Types)
    requires ExprsOk(es, types)
    ensures UsesOk(PerformedAll(es), types)
    decreases es, 0
  {
    if es != [] {
      PerformedOk(es[0], types, true);
      PerformedAllOk(es[1..], types);
    }
  }

  /** A scalar local moved by a guard that then fails, and used by the next arm: accepted, and not
      safe. */
  lemma GuardCounterexample(spans: Root -> nat)
    ensures var types, place := map[Local(0) := Scalar], Place(Local(0), []);
            var body := Trial(Expr(All([]), [Use(true, place, 1)]), place, 0);
            Accepted(body, types, spans) && !Safe(body, types)
  {
    var types: Types, place := map[Local(0) := Scalar], Place(Local(0), []);
    var u := Use(true, place, 1);
    var guard := Expr(All([]), [u]);
    var st, a := Everything(types, spans), InitialAvail(types.Keys);
    UseOfInitialized(Local(0), [], types, spans);
    assert VisitUses([u], st, types).reports == [];
    assert VisitOperands(All([]), st, types) == Visited(st, []);
    TrialAccepted(guard, Local(0), [], types, spans);
    var choices := [0, 1];
    assert RunUses([u], a, types, choices) == Done(Completes, a - Below(Local(0), []), choices);
    assert RunOperands(All([]), a, types, choices) == Done(Completes, a, choices);
    TrialUnsafe(guard, Local(0), [], types, choices);
  }
}
