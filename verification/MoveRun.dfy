/** Why an accepted program is safe: a run never uses a place of which some leaf is moved out or
    uninitialised (src/check/moves.rs, the whole pass).

    A run is driven by a finite list of choices: which branch is taken, whether a loop goes on, which
    element a run-time index names.  When the list is exhausted the run is cut off, so quantifying
    over all lists covers every prefix of every run, terminating or not.
 */
module MoveRun {
  import opened MoveCheck
  import opened MoveConverge
  import opened MoveShape
  import opened MoveTree
  import opened MoveTypes
  import opened Wrappers

  /** A location: a path below a root.  Only leaves matter. */
  datatype Loc = Loc(root: Root, path: Path)

  type Avail = iset<Loc>

  datatype Exit = Completes | Breaks | Continues | Returns

  datatype Run = Unsafe | Cut | Done(exit: Exit, avail: Avail, rest: seq<nat>)

  // ------------------------------------------------------------------ places at run time

  ghost function Below(root: Root, p: Path): Avail {
    iset l: Loc | l.root == root && p <= l.path
  }

  /** Every leaf of the place is initialised. */
  ghost predicate LeavesHeld(a: Avail, types: Types, root: Root, p: Path) {
    root in types ==> forall l :: IsLeaf(types[root], l) && p <= l ==> Loc(root, l) in a
  }

  /** The place with run-time indices replaced by the elements they name. */
  ghost function Resolve(ty: Ty, p: Path, choices: seq<nat>): (r: Option<(Path, seq<nat>)>)
    ensures r.Some? ==> |r.value.1| <= |choices| && Base(p) <= r.value.0
    ensures r.Some? && DynamicIndex !in p ==> r.value.0 == p
    decreases |p|
  {
    if p == [] then Some(([], choices))
    else
      var sub := if Project(ty, p[0]).Some? then Project(ty, p[0]).value else ty;
      if p[0] == DynamicIndex then
        if choices == [] then None
        else
          var index := if ty.Array? && ty.length > 0 then choices[0] % ty.length else choices[0];
          var r := Resolve(sub, p[1..], choices[1..]);
          if r.None? then None else Some(([ConstantIndex(index)] + r.value.0, r.value.1))
      else
        var r := Resolve(sub, p[1..], choices);
        assert p == [p[0]] + p[1..];
        assert DynamicIndex !in p ==> DynamicIndex !in p[1..];
        if r.None? then None else Some(([p[0]] + r.value.0, r.value.1))
  }

  // ------------------------------------------------------------------ runs

  ghost function RunUse(u: Use, a: Avail, types: Types, choices: seq<nat>): (r: Run)
    ensures r.Done? ==> |r.rest| <= |choices|
  {
    if u.place.root !in types then Cut
    else
      var p := Resolve(types[u.place.root], u.place.path, choices);
      if p.None? then Cut
      else if !LeavesHeld(a, types, u.place.root, p.value.0) then Unsafe
      else Done(Completes, if u.moves then a - Below(u.place.root, p.value.0) else a, p.value.1)
  }

  ghost function RunUses(us: seq<Use>, a: Avail, types: Types, choices: seq<nat>): (r: Run)
    ensures r.Done? ==> |r.rest| <= |choices|
  {
    if us == [] then Done(Completes, a, choices)
    else
      var first := RunUse(us[0], a, types, choices);
      if !first.Done? then first else RunUses(us[1..], first.avail, types, first.rest)
  }

  ghost function RunExpr(e: Expr, a: Avail, types: Types, choices: seq<nat>, own: bool): (r: Run)
    ensures r.Done? ==> |r.rest| <= |choices|
    decreases e, 1
  {
    var inner := RunOperands(e.operands, a, types, choices);
    if !inner.Done? || !own then inner else RunUses(e.uses, inner.avail, types, inner.rest)
  }

  ghost function RunOperands(o: Operands, a: Avail, types: Types, choices: seq<nat>): (r: Run)
    ensures r.Done? ==> |r.rest| <= |choices|
    decreases o, 1
  {
    match o
    case All(parts) => RunAll(parts, a, types, choices)
    case Logical(left, right) =>
      var first := RunExpr(left, a, types, choices, true);
      if !first.Done? then first
      else if first.rest == [] then Cut
      else if first.rest[0] % 2 == 0 then Done(Completes, first.avail, first.rest[1..])
      else RunExpr(right, first.avail, types, first.rest[1..], true)
    case PartOf(base, index) =>
      var first := RunExpr(base, a, types, choices, false);
      if !first.Done? then first else RunAll(index, first.avail, types, first.rest)
  }

  ghost function RunAll(es: seq<Expr>, a: Avail, types: Types, choices: seq<nat>): (r: Run)
    ensures r.Done? ==> |r.rest| <= |choices|
    decreases es, 0
  {
    if es == [] then Done(Completes, a, choices)
    else
      var first := RunExpr(es[0], a, types, choices, true);
      if !first.Done? then first else RunAll(es[1..], first.avail, types, first.rest)
  }

  ghost function BindRoots(roots: seq<Root>, a: Avail): Avail {
    if roots == [] then a else BindRoots(roots[1..], a + Below(roots[0], []))
  }

  ghost function RunPattern(steps: seq<PatternStep>, a: Avail, types: Types, choices: seq<nat>): (r: Run)
    ensures r.Done? ==> |r.rest| <= |choices|
    decreases steps
  {
    if steps == [] then Done(Completes, a, choices)
    else
      var first := RunStep(steps[0], a, types, choices);
      if !first.Done? then first else RunPattern(steps[1..], first.avail, types, first.rest)
  }

  /** Of several alternatives one fits; those that do not leave nothing behind. */
  ghost function RunStep(s: PatternStep, a: Avail, types: Types, choices: seq<nat>): (r: Run)
    ensures r.Done? ==> |r.rest| <= |choices|
    decreases s
  {
    match s
    case Consume(u) => RunUse(u, a, types, choices)
    case Bind(root, _) => Done(Completes, a + Below(root, []), choices)
    case Either(alternatives) =>
      if alternatives == [] || choices == [] then Cut
      else RunPattern(alternatives[choices[0] % |alternatives|].steps, a, types, choices[1..])
  }

  function BoundRoots(steps: seq<PatternStep>): set<Root>
    decreases steps
  {
    if steps == [] then {}
    else
      BoundRoots(steps[1..]) + match steps[0]
                               case Consume(_) => {}
                               case Bind(root, _) => {root}
                               case Either(alternatives) => BoundInAny(alternatives)
  }

  function BoundInAny(alternatives: seq<Alternative>): set<Root>
    decreases alternatives
  {
    if alternatives == [] then {} else BoundRoots(alternatives[0].steps) + BoundInAny(alternatives[1..])
  }

  /** What is available after a failed guard, from what was before the pattern, after it and after the
      guard: what the pattern took goes back if its bindings are intact, and what the guard took stays
      taken. */
  ghost function RolledBack(steps: seq<PatternStep>, a: Avail, bound: Avail, guarded: Avail): Avail {
    iset l: Loc | l in a && (l in guarded || (l !in bound && Intact(BoundRoots(steps), bound, guarded)))
  }

  ghost predicate Intact(roots: set<Root>, before: Avail, after: Avail) {
    forall l :: l in before && l.root in roots ==> l in after
  }

  /** The write of an assignment; a compound one reads the place first. */
  ghost function RunWrite(place: Place, compound: bool, a: Avail, types: Types, choices: seq<nat>): (r: Run)
    ensures r.Done? ==> |r.rest| <= |choices|
  {
    if place.root !in types then Cut
    else
      var p := Resolve(types[place.root], place.path, choices);
      if p.None? then Cut
      else if compound && !LeavesHeld(a, types, place.root, p.value.0) then Unsafe
      else Done(Completes, a + Below(place.root, p.value.0), p.value.1)
  }

  ghost function RunStmt(s: Stmt, a: Avail, types: Types, choices: seq<nat>): (r: Run)
    ensures r.Done? ==> |r.rest| <= |choices|
    decreases |choices|, s, 0
  {
    match s
    case Let(bindings, value, _) =>
      var v := RunExpr(value, a, types, choices, true);
      if !v.Done? then v else Done(Completes, BindRoots(bindings, v.avail), v.rest)
    case Assign(place, inputs, compound, value, _) =>
      var i := RunAll(inputs, a, types, choices);
      if !i.Done? then i
      else
        var v := RunExpr(value, i.avail, types, i.rest, true);
        if !v.Done? then v else RunWrite(place, compound, v.avail, types, v.rest)
    case Eval(value) =>
      var v := RunExpr(value, a, types, choices, true);
      if !v.Done? then v else Done(Completes, v.avail, v.rest)
    case Return(result) =>
      var v := RunAll(result, a, types, choices);
      if !v.Done? then v else Done(Returns, v.avail, v.rest)
    case If(condition, thenBody, elseBody) =>
      var v := RunExpr(condition, a, types, choices, true);
      if !v.Done? then v
      else if v.rest == [] then Cut
      else RunBlock(if v.rest[0] % 2 == 0 then thenBody else elseBody, v.avail, types, v.rest[1..])
    case While(condition, body) => RunWhile(condition, body, a, types, choices)
    case For(binding, iterable, body, _) =>
      var v := RunExpr(iterable, a, types, choices, true);
      if !v.Done? then v else RunFor(binding, body, v.avail, types, v.rest)
    case Match(scrutinee, arms) =>
      var v := RunExpr(scrutinee, a, types, choices, true);
      if !v.Done? then v else RunArms(arms, v.avail, types, v.rest)
    case Block(body) => RunBlock(body, a, types, choices)
    case Break => Done(Breaks, a, choices)
    case Continue => Done(Continues, a, choices)
    case Pass => Done(Completes, a, choices)
  }

  /** The arms in order: one whose pattern does not fit is passed over, and so is one whose guard
      fails, which gives back what its pattern took. */
  ghost function RunArms(arms: seq<Arm>, a: Avail, types: Types, choices: seq<nat>): (r: Run)
    ensures r.Done? ==> |r.rest| <= |choices|
    decreases |choices|, arms, 0
  {
    if arms == [] || choices == [] then Cut
    else if choices[0] % 2 == 0 then RunArms(arms[1..], a, types, choices[1..])
    else
      var p := RunPattern(arms[0].pattern, a, types, choices[1..]);
      if !p.Done? then p
      else if arms[0].guard == [] then RunBlock(arms[0].body, p.avail, types, p.rest)
      else
        var g := RunAll(arms[0].guard, p.avail, types, p.rest);
        if !g.Done? then g
        else if g.rest == [] then Cut
        else if g.rest[0] % 2 == 0 then
          RunArms(arms[1..], RolledBack(arms[0].pattern, a, p.avail, g.avail), types, g.rest[1..])
        else RunBlock(arms[0].body, g.avail, types, g.rest[1..])
  }

  ghost function RunBlock(stmts: seq<Stmt>, a: Avail, types: Types, choices: seq<nat>): (r: Run)
    ensures r.Done? ==> |r.rest| <= |choices|
    decreases |choices|, stmts, 0
  {
    if stmts == [] then Done(Completes, a, choices)
    else
      var first := RunStmt(stmts[0], a, types, choices);
      if first.Done? && first.exit == Completes then RunBlock(stmts[1..], first.avail, types, first.rest) else first
  }

  ghost function RunWhile(condition: Expr, body: seq<Stmt>, a: Avail, types: Types, choices: seq<nat>): (r: Run)
    ensures r.Done? ==> |r.rest| <= |choices|
    decreases |choices|, body, 1
  {
    var v := RunExpr(condition, a, types, choices, true);
    if !v.Done? then v
    else if v.rest == [] then Cut
    else if v.rest[0] % 2 == 0 then Done(Completes, v.avail, v.rest[1..])
    else
      var b := RunBlock(body, v.avail, types, v.rest[1..]);
      if !b.Done? || b.exit == Returns then b
      else if b.exit == Breaks then Done(Completes, b.avail, b.rest)
      else RunWhile(condition, body, b.avail, types, b.rest)
  }

  ghost function RunFor(binding: Root, body: seq<Stmt>, a: Avail, types: Types, choices: seq<nat>): (r: Run)
    ensures r.Done? ==> |r.rest| <= |choices|
    decreases |choices|, body, 1
  {
    if choices == [] then Cut
    else if choices[0] % 2 == 0 then Done(Completes, a, choices[1..])
    else
      var b := RunBlock(body, a + Below(binding, []), types, choices[1..]);
      if !b.Done? || b.exit == Returns then b
      else if b.exit == Breaks then Done(Completes, b.avail, b.rest)
      else RunFor(binding, body, b.avail, types, b.rest)
  }

  // ------------------------------------------------------------------ abstraction

  /** Whatever the checker believes initialised is. */
  ghost predicate Believes(st: State, a: Avail, types: Types) {
    forall r, l :: r in types && IsLeaf(types[r], l) ==> BelievesAt(st, a, r, l)
  }

  ghost predicate BelievesAt(st: State, a: Avail, r: Root, l: Path) {
    r in st && (Lookup(st[r], l).Initialized? ==> Loc(r, l) in a)
  }

  lemma {:induction false} LeafHasNoDynamic(ty: Ty, l: Path)
    requires IsLeaf(ty, l)
    ensures DynamicIndex !in l
    decreases |l|
  {
    if l != [] {
      LeafHasNoDynamic(Project(ty, l[0]).value, l[1..]);
      assert l == [l[0]] + l[1..];
    }
  }

  lemma {:induction false} LeafBelow(ty: Ty, b: Path, l: Path)
    requires ValidPath(ty, b) && IsLeaf(ty, l) && b <= l
    ensures IsLeaf(TypeAt(ty, b), l[|b|..])
    decreases |b|
  {
    if b != [] {
      LeafBelow(Project(ty, b[0]).value, b[1..], l[1..]);
      assert l[1..][|b[1..]|..] == l[|b|..];
    }
  }

  /** What the checker finds usable holds all its leaves, whichever element an index names. */
  lemma UsableHolds(st: State, a: Avail, types: Types, place: Place, choices: seq<nat>)
    requires StateOk(st, types) && TypesOk(types) && PlaceOk(place, types) && Believes(st, a, types)
    requires Usable(st, types, place)
    ensures var p := Resolve(types[place.root], place.path, choices);
            p.Some? ==> LeavesHeld(a, types, place.root, p.value.0)
  {
    hide NodeAt, DynamicsInitialized, Available, Resolve, TypeAt;
    var ty, n, b := types[place.root], st[place.root], Base(place.path);
    var p := Resolve(ty, place.path, choices);
    BaseValid(ty, place.path);
    PlaceAvailableExact(n, ty, place.path);
    if p.Some? {
      forall l | IsLeaf(ty, l) && p.value.0 <= l ensures Loc(place.root, l) in a {
        assert b <= l;
        LeafBelow(ty, b, l);
        assert l == b + l[|b|..];
        assert Lookup(n, b + l[|b|..]).Initialized?;
        assert BelievesAt(st, a, place.root, l);
      }
    }
  }

  lemma {:induction false} IndexedMoveDynamic(ty: Ty, p: Path)
    requires !IndexedMove(ty, p)
    ensures DynamicIndex !in p
    decreases |p|
  {
    if p != [] {
      IndexedMoveDynamic(if Project(ty, p[0]).Some? then Project(ty, p[0]).value else ty, p[1..]);
      assert p == [p[0]] + p[1..];
    }
  }

  /** Removing a moved place keeps the beliefs about the others. */
  lemma MoveBelieved(st: State, a: Avail, types: Types, place: Place, span: nat)
    requires Believes(st, a, types)
    ensures Believes(SetPlace(st, place, Moved(span)), a - Below(place.root, place.path), types)
  {
    var st2, a2 := SetPlace(st, place, Moved(span)), a - Below(place.root, place.path);
    forall r, l | r in types && IsLeaf(types[r], l) ensures BelievesAt(st2, a2, r, l) {
      assert BelievesAt(st, a, r, l);
      if r == place.root {
        SetMeaning(st[r], place.path, Moved(span), l);
      }
    }
  }

  /** A write makes the place it names available. */
  lemma WriteBelieved(st: State, a: Avail, types: Types, place: Place, span: nat, p: Path)
    requires Believes(st, a, types)
    requires DynamicIndex !in place.path ==> p == place.path
    ensures Believes(SetPlace(st, place, Initialized(span)), a + Below(place.root, p), types)
  {
    var st2, a2 := SetPlace(st, place, Initialized(span)), a + Below(place.root, p);
    forall r, l | r in types && IsLeaf(types[r], l) ensures BelievesAt(st2, a2, r, l) {
      assert BelievesAt(st, a, r, l);
      LeafHasNoDynamic(types[r], l);
      if r == place.root {
        SetMeaning(st[r], place.path, Initialized(span), l);
        if place.path <= l {
          forall k | k in place.path ensures k in l {
            var i :| 0 <= i < |place.path| && place.path[i] == k;
            assert l[i] == k;
          }
        }
      }
    }
  }

  lemma {:induction false} JoinWeakens(joined: State, states: seq<State>, s: State, r: Root, l: Path)
    requires s == joined || s in states
    requires r in joined && r in s && forall t :: t in states ==> r in t
    ensures r in JoinFrom(joined, states)
    ensures Lookup(JoinFrom(joined, states)[r], l).Initialized? ==> Lookup(s[r], l).Initialized?
    decreases states
  {
    if states != [] {
      var two := JoinTwo(joined, states[0]);
      JoinNeverGrants(joined[r], states[0][r], l);
      assert states == [states[0]] + states[1..];
      JoinWeakens(two, states[1..], if s == joined || s == states[0] then two else s, r, l);
    }
  }

  /** A join believes no more than any of the states it joins. */
  lemma JoinBelieved(joined: State, states: seq<State>, s: State, a: Avail, types: Types)
    requires StateOk(joined, types) && StatesOk(states, types)
    requires (s == joined || s in states) && Believes(s, a, types)
    ensures Believes(JoinFrom(joined, states), a, types)
  {
    forall r, l | r in types && IsLeaf(types[r], l) ensures BelievesAt(JoinFrom(joined, states), a, r, l) {
      assert BelievesAt(s, a, r, l);
      JoinWeakens(joined, states, s, r, l);
    }
  }

  lemma JoinAllBelieved(states: seq<State>, s: State, a: Avail, types: Types)
    requires StatesOk(states, types) && s in states && Believes(s, a, types)
    ensures JoinAll(states).Some? && Believes(JoinAll(states).value, a, types)
  {
    assert states == [states[0]] + states[1..];
    JoinBelieved(states[0], states[1..], s, a, types);
  }

  // ------------------------------------------------------------------ expressions

  /** The run did nothing forbidden, and the checker's state describes where it ended. */
  ghost predicate Described(v: Visited, r: Run, types: Types) {
    v.reports == [] ==> !r.Unsafe? && (r.Done? ==> r.exit == Completes && Believes(v.state, r.avail, types))
  }

  lemma UseSafe(u: Use, st: State, a: Avail, types: Types, choices: seq<nat>)
    requires StateOk(st, types) && TypesOk(types) && PlaceOk(u.place, types) && Believes(st, a, types)
    ensures Described(VisitUse(u, st, types), RunUse(u, a, types, choices), types)
  {
    if VisitUse(u, st, types).reports == [] {
      UsableHolds(st, a, types, u.place, choices);
      if u.moves {
        IndexedMoveDynamic(types[u.place.root], u.place.path);
        MoveBelieved(st, a, types, u.place, u.span);
      }
    }
  }

  lemma {:induction false} UsesSafe(us: seq<Use>, st: State, a: Avail, types: Types, choices: seq<nat>)
    requires StateOk(st, types) && TypesOk(types) && UsesOk(us, types) && Believes(st, a, types)
    ensures Described(VisitUses(us, st, types), RunUses(us, a, types, choices), types)
  {
    hide Believes;
    if us != [] {
      UseSafe(us[0], st, a, types, choices);
      VisitUseOk(us[0], st, types);
      var first, run := VisitUse(us[0], st, types), RunUse(us[0], a, types, choices);
      if first.reports == [] && run.Done? {
        UsesSafe(us[1..], first.state, run.avail, types, run.rest);
      }
    }
  }

  lemma {:induction false} ExprSafe(e: Expr, st: State, a: Avail, types: Types, choices: seq<nat>, own: bool)
    requires StateOk(st, types) && TypesOk(types) && ExprOk(e, types) && Believes(st, a, types)
    ensures Described(Visit(e, st, types, own), RunExpr(e, a, types, choices, own), types)
    decreases e, 1
  {
    hide Believes;
    OperandsSafe(e.operands, st, a, types, choices);
    VisitOperandsOk(e.operands, st, types);
    var inner, run := VisitOperands(e.operands, st, types), RunOperands(e.operands, a, types, choices);
    if inner.reports == [] && run.Done? {
      UsesSafe(e.uses, inner.state, run.avail, types, run.rest);
    }
  }

  lemma {:induction false} OperandsSafe(o: Operands, st: State, a: Avail, types: Types, choices: seq<nat>)
    requires StateOk(st, types) && TypesOk(types) && OperandsOk(o, types) && Believes(st, a, types)
    ensures Described(VisitOperands(o, st, types), RunOperands(o, a, types, choices), types)
    decreases o, 1
  {
    hide Believes;
    match o
    case All(parts) => AllSafe(parts, st, a, types, choices);
    case Logical(left, right) =>
      ExprSafe(left, st, a, types, choices, true);
      VisitOk(left, st, types, true);
      var first, run := Visit(left, st, types, true), RunExpr(left, a, types, choices, true);
      VisitOk(right, first.state, types, true);
      var second := Visit(right, first.state, types, true);
      var joined: seq<State> := [second.state];
      assert joined[1..] == [] && JoinFrom(first.state, joined) == JoinFrom(JoinTwo(first.state, second.state), []);
      if VisitOperands(o, st, types).reports == [] && run.Done? && run.rest != [] {
        if run.rest[0] % 2 == 0 {
          JoinBelieved(first.state, joined, first.state, run.avail, types);
        } else {
          ExprSafe(right, first.state, run.avail, types, run.rest[1..], true);
          var run2 := RunExpr(right, run.avail, types, run.rest[1..], true);
          if run2.Done? {
            JoinBelieved(first.state, joined, second.state, run2.avail, types);
          }
        }
      }
    case PartOf(base, index) =>
      ExprSafe(base, st, a, types, choices, false);
      VisitOk(base, st, types, false);
      var first, run := Visit(base, st, types, false), RunExpr(base, a, types, choices, false);
      if first.reports == [] && run.Done? {
        AllSafe(index, first.state, run.avail, types, run.rest);
      }
  }

  lemma {:induction false} AllSafe(es: seq<Expr>, st: State, a: Avail, types: Types, choices: seq<nat>)
    requires StateOk(st, types) && TypesOk(types) && ExprsOk(es, types) && Believes(st, a, types)
    ensures Described(VisitAll(es, st, types), RunAll(es, a, types, choices), types)
    decreases es, 0
  {
    hide Believes;
    if es != [] {
      ExprSafe(es[0], st, a, types, choices, true);
      VisitOk(es[0], st, types, true);
      var first, run := Visit(es[0], st, types, true), RunExpr(es[0], a, types, choices, true);
      if first.reports == [] && run.Done? {
        AllSafe(es[1..], first.state, run.avail, types, run.rest);
      }
    }
  }

  lemma {:induction false} BindAllBelieved(roots: seq<Root>, span: nat, st: State, a: Avail, types: Types)
    requires Believes(st, a, types)
    ensures Believes(BindAll(roots, span, st), BindRoots(roots, a), types)
  {
    hide Believes;
    if roots != [] {
      WriteBelieved(st, a, types, Place(roots[0], []), span, []);
      BindAllBelieved(roots[1..], span, SetPlace(st, Place(roots[0], []), Initialized(span)),
                      a + Below(roots[0], []), types);
    }
  }

  lemma {:induction false} PatternSafe(steps: seq<PatternStep>, st: State, a: Avail, types: Types, choices: seq<nat>)
    requires StateOk(st, types) && TypesOk(types) && PatternOk(steps, types) && Believes(st, a, types)
    ensures Described(ApplyPattern(steps, st, types), RunPattern(steps, a, types, choices), types)
    decreases steps
  {
    hide Believes, ApplyStep, RunStep;
    if steps != [] {
      StepSafe(steps[0], st, a, types, choices);
      ApplyStepOk(steps[0], st, types);
      var first, run := ApplyStep(steps[0], st, types), RunStep(steps[0], a, types, choices);
      if first.reports == [] && run.Done? {
        PatternSafe(steps[1..], first.state, run.avail, types, run.rest);
      }
    }
  }

  lemma {:induction false} StepSafe(s: PatternStep, st: State, a: Avail, types: Types, choices: seq<nat>)
    requires StateOk(st, types) && TypesOk(types) && StepOk(s, types) && Believes(st, a, types)
    ensures Described(ApplyStep(s, st, types), RunStep(s, a, types, choices), types)
    decreases s
  {
    hide Believes, ApplyPattern, RunPattern;
    match s
    case Consume(u) => UseSafe(u, st, a, types, choices);
    case Bind(root, span) => WriteBelieved(st, a, types, Place(root, []), span, []);
    case Either(alternatives) =>
      var e := ApplyEither(alternatives, st, types);
      if e.reports == [] && alternatives != [] && choices != [] {
        var i := choices[0] % |alternatives|;
        AlternativeTried(alternatives, i, st, types);
        PatternSafe(alternatives[i].steps, st, a, types, choices[1..]);
        var run := RunPattern(alternatives[i].steps, a, types, choices[1..]);
        if run.Done? {
          ApplyEitherOk(alternatives, st, types);
          JoinAllBelieved(e.states, ApplyPattern(alternatives[i].steps, st, types).state, run.avail, types);
        }
      }
  }

  /** The state of every alternative is among those joined. */
  lemma {:induction false} AlternativeTried(alternatives: seq<Alternative>, i: nat, st: State, types: Types)
    requires i < |alternatives| && EitherOk(alternatives, types)
    requires ApplyEither(alternatives, st, types).reports == []
    ensures PatternOk(alternatives[i].steps, types) && ApplyPattern(alternatives[i].steps, st, types).reports == []
    ensures ApplyPattern(alternatives[i].steps, st, types).state in ApplyEither(alternatives, st, types).states
    decreases i
  {
    hide ApplyPattern, PatternOk;
    if i > 0 {
      AlternativeTried(alternatives[1..], i - 1, st, types);
    }
  }

  lemma WriteSafe(place: Place, compound: bool, span: nat, st: State, a: Avail, types: Types, choices: seq<nat>)
    requires StateOk(st, types) && TypesOk(types) && PlaceOk(place, types) && Believes(st, a, types)
    requires compound ==> Usable(st, types, place)
    ensures Described(Visited(SetPlace(st, place, Initialized(span)), []),
                      RunWrite(place, compound, a, types, choices), types)
  {
    var p := Resolve(types[place.root], place.path, choices);
    if p.Some? {
      if compound {
        UsableHolds(st, a, types, place, choices);
      }
      WriteBelieved(st, a, types, place, span, p.value.0);
    }
  }

  // ------------------------------------------------------------------ guards

  /** The uses an expression performs when every part of it is evaluated. */
  function Performed(e: Expr, own: bool): seq<Use>
    decreases e, 1
  {
    PerformedOperands(e.operands) + if own then e.uses else []
  }

  function PerformedOperands(o: Operands): seq<Use>
    decreases o, 1
  {
    match o
    case All(parts) => PerformedAll(parts)
    case Logical(left, right) => Performed(left, true) + Performed(right, true)
    case PartOf(base, index) => Performed(base, false) + PerformedAll(index)
  }

  function PerformedAll(es: seq<Expr>): seq<Use>
    decreases es, 0
  {
    if es == [] then [] else Performed(es[0], true) + PerformedAll(es[1..])
  }

  predicate MovesNothing(us: seq<Use>) {
    forall u :: u in us ==> !u.moves
  }

  lemma {:induction false} UsesKeep(us: seq<Use>, a: Avail, types: Types, choices: seq<nat>)
    requires MovesNothing(us)
    ensures var r := RunUses(us, a, types, choices);
            r.Done? ==> r.avail == a
  {
    if us != [] {
      var first := RunUse(us[0], a, types, choices);
      if first.Done? {
        UsesKeep(us[1..], first.avail, types, first.rest);
      }
    }
  }

  lemma {:induction false} ExprKeeps(e: Expr, a: Avail, types: Types, choices: seq<nat>, own: bool)
    requires MovesNothing(Performed(e, own))
    ensures var r := RunExpr(e, a, types, choices, own);
            r.Done? ==> r.avail == a
    decreases e, 1
  {
    hide RunUses;
    OperandsKeep(e.operands, a, types, choices);
    var inner := RunOperands(e.operands, a, types, choices);
    if inner.Done? && own {
      UsesKeep(e.uses, inner.avail, types, inner.rest);
    }
  }

  lemma {:induction false} OperandsKeep(o: Operands, a: Avail, types: Types, choices: seq<nat>)
    requires MovesNothing(PerformedOperands(o))
    ensures var r := RunOperands(o, a, types, choices);
            r.Done? ==> r.avail == a
    decreases o, 1
  {
    match o
    case All(parts) => AllKeep(parts, a, types, choices);
    case Logical(left, right) =>
      ExprKeeps(left, a, types, choices, true);
      var first := RunExpr(left, a, types, choices, true);
      if first.Done? && first.rest != [] {
        ExprKeeps(right, first.avail, types, first.rest[1..], true);
      }
    case PartOf(base, index) =>
      ExprKeeps(base, a, types, choices, false);
      var first := RunExpr(base, a, types, choices, false);
      if first.Done? {
        AllKeep(index, first.avail, types, first.rest);
      }
  }

  lemma {:induction false} AllKeep(es: seq<Expr>, a: Avail, types: Types, choices: seq<nat>)
    requires MovesNothing(PerformedAll(es))
    ensures var r := RunAll(es, a, types, choices);
            r.Done? ==> r.avail == a
    decreases es, 0
  {
    if es != [] {
      ExprKeeps(es[0], a, types, choices, true);
      var first := RunExpr(es[0], a, types, choices, true);
      if first.Done? {
        AllKeep(es[1..], first.avail, types, first.rest);
      }
    }
  }

  /** After a failed guard that moved nothing, everything is as before the pattern. */
  lemma FailedGuard(steps: seq<PatternStep>, a: Avail, bound: Avail)
    ensures RolledBack(steps, a, bound, bound) == a
  {
  }

  /** No guard in the program moves anything. */
  predicate StmtGuardsKeep(s: Stmt)
    decreases s
  {
    match s
    case If(_, a, b) => GuardsKeep(a) && GuardsKeep(b)
    case While(_, body) => GuardsKeep(body)
    case For(_, _, body, _) => GuardsKeep(body)
    case Match(_, arms) => ArmGuardsKeep(arms)
    case Block(body) => GuardsKeep(body)
    case _ => true
  }

  predicate GuardsKeep(stmts: seq<Stmt>)
    decreases stmts
  {
    stmts == [] || (StmtGuardsKeep(stmts[0]) && GuardsKeep(stmts[1..]))
  }

  predicate ArmGuardsKeep(arms: seq<Arm>)
    decreases arms
  {
    arms == [] ||
    (MovesNothing(PerformedAll(arms[0].guard)) && GuardsKeep(arms[0].body) && ArmGuardsKeep(arms[1..]))
  }

  // ------------------------------------------------------------------ statements

  ghost predicate SomeBelieves(states: seq<State>, a: Avail, types: Types) {
    exists s :: s in states && Believes(s, a, types)
  }

  /** The run did nothing forbidden, and some state the checker computed for the edge it left by
      describes where it ended. */
  ghost predicate Covers(f: Flow, r: Run, types: Types) {
    && !r.Unsafe?
    && (r.Done? ==> match r.exit
          case Completes => f.normal.Some? && Believes(f.normal.value, r.avail, types)
          case Breaks => SomeBelieves(f.breaks, r.avail, types)
          case Continues => SomeBelieves(f.continues, r.avail, types)
          case Returns => true)
  }

  lemma CoversMore(f: Flow, f2: Flow, r: Run, types: Types)
    requires Covers(f, r, types)
    requires r.Done? && r.exit == Completes ==>
               f2.normal.Some? && Believes(f2.normal.value, r.avail, types)
    requires forall s :: s in f.breaks ==> s in f2.breaks
    requires forall s :: s in f.continues ==> s in f2.continues
    ensures Covers(f2, r, types)
  {
    hide Believes;
  }

  lemma {:induction false} StmtSafe(s: Stmt, st: State, a: Avail, types: Types, choices: seq<nat>)
    requires StateOk(st, types) && TypesOk(types) && StmtOk(s, types) && Believes(st, a, types)
    requires CheckStmt(s, st, types).reports == []
    requires StmtGuardsKeep(s)
    ensures Covers(CheckStmt(s, st, types).flow, RunStmt(s, a, types, choices), types)
    decreases |choices|, s, 1
  {
    hide Believes;
    match s
    case Let(bindings, value, span) =>
      ExprSafe(value, st, a, types, choices, true);
      var v, r := Visit(value, st, types, true), RunExpr(value, a, types, choices, true);
      if r.Done? {
        BindAllBelieved(bindings, span, v.state, r.avail, types);
      }
    case Assign(_, _, _, _, _) => AssignSafe(s, st, a, types, choices);
    case Eval(value) => ExprSafe(value, st, a, types, choices, true);
    case Return(result) => AllSafe(result, st, a, types, choices);
    case If(_, _, _) => IfSafe(s, st, a, types, choices);
    case While(condition, body) => WhileSafe(s, st, a, types, choices);
    case For(binding, iterable, body, span) => ForSafe(s, st, a, types, choices);
    case Match(_, _) => MatchSafe(s, st, a, types, choices);
    case Block(body) => BlockSafe(body, st, a, types, choices);
    case Break => assert st in CheckStmt(s, st, types).flow.breaks;
    case Continue => assert st in CheckStmt(s, st, types).flow.continues;
    case Pass =>
  }

  lemma AssignSafe(s: Stmt, st: State, a: Avail, types: Types, choices: seq<nat>)
    requires s.Assign? && StateOk(st, types) && TypesOk(types) && StmtOk(s, types) && Believes(st, a, types)
    requires CheckStmt(s, st, types).reports == []
    ensures Covers(CheckStmt(s, st, types).flow, RunStmt(s, a, types, choices), types)
  {
    hide Believes;
    var i, ri := VisitAll(s.inputs, st, types), RunAll(s.inputs, a, types, choices);
    AllSafe(s.inputs, st, a, types, choices);
    VisitAllOk(s.inputs, st, types);
    if ri.Done? {
      ExprSafe(s.value, i.state, ri.avail, types, ri.rest, true);
      VisitOk(s.value, i.state, types, true);
      var v, rv := Visit(s.value, i.state, types, true), RunExpr(s.value, ri.avail, types, ri.rest, true);
      if rv.Done? {
        WriteSafe(s.place, s.compound, s.span, v.state, rv.avail, types, rv.rest);
      }
    }
  }

  lemma {:induction false} IfSafe(s: Stmt, st: State, a: Avail, types: Types, choices: seq<nat>)
    requires s.If? && StateOk(st, types) && TypesOk(types) && StmtOk(s, types) && Believes(st, a, types)
    requires CheckStmt(s, st, types).reports == []
    requires StmtGuardsKeep(s)
    ensures Covers(CheckStmt(s, st, types).flow, RunStmt(s, a, types, choices), types)
    decreases |choices|, s, 0
  {
    hide Believes, Visit, CheckBlock, JoinAll, StateOk, FlowOk, RunExpr, RunBlock;
    var v, r := Visit(s.condition, st, types, true), RunExpr(s.condition, a, types, choices, true);
    ExprSafe(s.condition, st, a, types, choices, true);
    VisitOk(s.condition, st, types, true);
    if r.Done? && r.rest != [] {
      var fa, fb := CheckBlock(s.thenBody, v.state, types).flow, CheckBlock(s.elseBody, v.state, types).flow;
      CheckBlockOk(s.thenBody, v.state, types);
      CheckBlockOk(s.elseBody, v.state, types);
      var chosen := if r.rest[0] % 2 == 0 then s.thenBody else s.elseBody;
      var f := if r.rest[0] % 2 == 0 then fa else fb;
      BlockSafe(chosen, v.state, r.avail, types, r.rest[1..]);
      var run := RunBlock(chosen, r.avail, types, r.rest[1..]);
      if run.Done? && run.exit == Completes {
        JoinAllBelieved(Chain(fa.normal, fb.normal), f.normal.value, run.avail, types);
      }
      CoversMore(f, CheckStmt(s, st, types).flow, run, types);
    }
  }

  lemma {:induction false} MatchSafe(s: Stmt, st: State, a: Avail, types: Types, choices: seq<nat>)
    requires s.Match? && StateOk(st, types) && TypesOk(types) && StmtOk(s, types) && Believes(st, a, types)
    requires CheckStmt(s, st, types).reports == []
    requires StmtGuardsKeep(s)
    ensures Covers(CheckStmt(s, st, types).flow, RunStmt(s, a, types, choices), types)
    decreases |choices|, s, 0
  {
    hide Believes, Visit, CheckArms, JoinAll, StateOk, RunExpr, RunArms;
    var v, r := Visit(s.scrutinee, st, types, true), RunExpr(s.scrutinee, a, types, choices, true);
    ExprSafe(s.scrutinee, st, a, types, choices, true);
    VisitOk(s.scrutinee, st, types, true);
    if r.Done? {
      ArmsSafe(s.arms, v.state, r.avail, types, r.rest);
      CheckArmsOk(s.arms, v.state, types);
      var c, run := CheckArms(s.arms, v.state, types), RunArms(s.arms, r.avail, types, r.rest);
      if run.Done? && run.exit == Completes {
        var n :| n in c.normals && Believes(n, run.avail, types);
        JoinAllBelieved(c.normals, n, run.avail, types);
      }
    }
  }

  /** The same for what leaves the arms of a match. */
  ghost predicate ArmsCover(c: ArmsChecked, r: Run, types: Types) {
    && !r.Unsafe?
    && (r.Done? ==> match r.exit
          case Completes => SomeBelieves(c.normals, r.avail, types)
          case Breaks => SomeBelieves(c.breaks, r.avail, types)
          case Continues => SomeBelieves(c.continues, r.avail, types)
          case Returns => true)
  }

  lemma ArmsCoverMore(c: ArmsChecked, c2: ArmsChecked, r: Run, types: Types)
    requires ArmsCover(c, r, types)
    requires forall s :: s in c.normals ==> s in c2.normals
    requires forall s :: s in c.breaks ==> s in c2.breaks
    requires forall s :: s in c.continues ==> s in c2.continues
    ensures ArmsCover(c2, r, types)
  {
    hide Believes;
  }

  lemma BodyCovers(f: Flow, r: Run, c: ArmsChecked, types: Types)
    requires Covers(f, r, types)
    requires f.normal.Some? ==> f.normal.value in c.normals
    requires forall s :: s in f.breaks ==> s in c.breaks
    requires forall s :: s in f.continues ==> s in c.continues
    ensures ArmsCover(c, r, types)
  {
    hide Believes;
  }

  /** What checking the first arm contributes. */
  lemma FirstArm(arms: seq<Arm>, st: State, types: Types)
    requires arms != [] && CheckArms(arms, st, types).reports == []
    ensures var p := ApplyPattern(arms[0].pattern, st, types);
            var g := VisitAll(arms[0].guard, p.state, types);
            var b := CheckBlock(arms[0].body, g.state, types);
            var rest, all := CheckArms(arms[1..], st, types), CheckArms(arms, st, types);
            && p.reports == [] && g.reports == [] && b.reports == [] && rest.reports == []
            && (b.flow.normal.Some? ==> b.flow.normal.value in all.normals)
            && (forall s :: s in b.flow.breaks ==> s in all.breaks)
            && (forall s :: s in b.flow.continues ==> s in all.continues)
            && (forall s :: s in rest.normals ==> s in all.normals)
            && (forall s :: s in rest.breaks ==> s in all.breaks)
            && (forall s :: s in rest.continues ==> s in all.continues)
  {
  }

  /** Whichever arm a run ends up in, after however many failed guards. */
  lemma {:induction false} ArmsSafe(arms: seq<Arm>, st: State, a: Avail, types: Types, choices: seq<nat>)
    requires StateOk(st, types) && TypesOk(types) && ArmsOk(arms, types) && Believes(st, a, types)
    requires ArmGuardsKeep(arms) && CheckArms(arms, st, types).reports == []
    ensures ArmsCover(CheckArms(arms, st, types), RunArms(arms, a, types, choices), types)
    decreases |choices|, arms, 1
  {
    hide Believes, CheckArms, StateOk, RunBlock, RunPattern, RunAll, ArmsCover, MovesNothing, RolledBack;
    if arms == [] || choices == [] {
      CutCovers(CheckArms(arms, st, types), types);
    } else {
      FirstArm(arms, st, types);
      if choices[0] % 2 == 0 {
        ArmsSafe(arms[1..], st, a, types, choices[1..]);
        ArmsCoverMore(CheckArms(arms[1..], st, types), CheckArms(arms, st, types),
                      RunArms(arms[1..], a, types, choices[1..]), types);
      } else {
        ArmSafe(arms, st, a, types, choices);
      }
    }
  }

  lemma CutCovers(c: ArmsChecked, types: Types)
    ensures ArmsCover(c, Cut, types)
  {
  }

  lemma {:induction false} ArmSafe(arms: seq<Arm>, st: State, a: Avail, types: Types, choices: seq<nat>)
    requires StateOk(st, types) && TypesOk(types) && ArmsOk(arms, types) && Believes(st, a, types)
    requires ArmGuardsKeep(arms) && CheckArms(arms, st, types).reports == []
    requires arms != [] && choices != [] && choices[0] % 2 != 0
    ensures ArmsCover(CheckArms(arms, st, types), RunArms(arms, a, types, choices), types)
    decreases |choices|, arms, 0
  {
    hide Believes, CheckArms, ApplyPattern, VisitAll, CheckBlock, StateOk, RunBlock, RunPattern, RunAll, ArmsCover,
         Covers, MovesNothing, RolledBack;
    var arm := arms[0];
    FirstArm(arms, st, types);
    var all := CheckArms(arms, st, types);
    var p, rp := ApplyPattern(arm.pattern, st, types), RunPattern(arm.pattern, a, types, choices[1..]);
    PatternSafe(arm.pattern, st, a, types, choices[1..]);
    ApplyPatternOk(arm.pattern, st, types);
    if rp.Done? {
      var g, rg := VisitAll(arm.guard, p.state, types), RunAll(arm.guard, rp.avail, types, rp.rest);
      AllSafe(arm.guard, p.state, rp.avail, types, rp.rest);
      VisitAllOk(arm.guard, p.state, types);
      var f := CheckBlock(arm.body, g.state, types).flow;
      if arm.guard == [] {
        NoGuard(p.state, rp.avail, types, rp.rest);
        BlockSafe(arm.body, g.state, rp.avail, types, rp.rest);
        BodyCovers(f, RunBlock(arm.body, rp.avail, types, rp.rest), all, types);
      } else if rg.Done? && rg.rest != [] {
        if rg.rest[0] % 2 == 0 {
          AllKeep(arm.guard, rp.avail, types, rp.rest);
          FailedGuard(arm.pattern, a, rp.avail);
          ArmsSafe(arms[1..], st, a, types, rg.rest[1..]);
          ArmsCoverMore(CheckArms(arms[1..], st, types), all, RunArms(arms[1..], a, types, rg.rest[1..]), types);
        } else {
          BlockSafe(arm.body, g.state, rg.avail, types, rg.rest[1..]);
          BodyCovers(f, RunBlock(arm.body, rg.avail, types, rg.rest[1..]), all, types);
        }
      } else {
        CutCovers(all, types);
      }
    } else {
      CutCovers(all, types);
    }
  }

  lemma NoGuard(st: State, a: Avail, types: Types, choices: seq<nat>)
    ensures VisitAll([], st, types) == Visited(st, []) && RunAll([], a, types, choices) == Done(Completes, a, choices)
  {
  }

  lemma {:induction false} BlockSafe(stmts: seq<Stmt>, st: State, a: Avail, types: Types, choices: seq<nat>)
    requires StateOk(st, types) && TypesOk(types) && BlockOk(stmts, types) && Believes(st, a, types)
    requires CheckBlock(stmts, st, types).reports == []
    requires GuardsKeep(stmts)
    ensures Covers(CheckBlock(stmts, st, types).flow, RunBlock(stmts, a, types, choices), types)
    decreases |choices|, stmts, 0
  {
    hide Believes;
    if stmts != [] {
      var first, run := CheckStmt(stmts[0], st, types), RunStmt(stmts[0], a, types, choices);
      StmtSafe(stmts[0], st, a, types, choices);
      CheckStmtOk(stmts[0], st, types);
      if run.Done? && run.exit == Completes {
        var mid := first.flow.normal.value;
        BlockSafe(stmts[1..], mid, run.avail, types, run.rest);
        var rest := CheckBlock(stmts[1..], mid, types);
        CoversMore(rest.flow, CheckBlock(stmts, st, types).flow, RunBlock(stmts[1..], run.avail, types, run.rest),
                   types);
      } else {
        CoversMore(first.flow, CheckBlock(stmts, st, types).flow, run, types);
      }
    }
  }

  // ------------------------------------------------------------------ loops

  /** A head that the back edge leads back to describes every iteration. */
  lemma NextHeadBelieved(entry: State, f: Flow, r: Run, types: Types)
    requires StateOk(entry, types) && FlowOk(f, types) && Covers(f, r, types)
    requires r.Done? && (r.exit == Completes || r.exit == Continues)
    ensures Believes(NextHead(entry, f), r.avail, types)
  {
    hide Believes;
    var states := Chain(f.normal, None) + f.continues;
    var s :| s in states && Believes(s, r.avail, types);
    JoinAllBelieved(states, s, r.avail, types);
    JoinAllOk(states, types);
    var back := JoinAll(states);
    JoinBelieved(entry, Chain(back, None), back.value, r.avail, types);
  }

  lemma EntryBelieved(entry: State, f: Flow, a: Avail, types: Types)
    requires StateOk(entry, types) && FlowOk(f, types) && Believes(entry, a, types)
    ensures Believes(NextHead(entry, f), a, types)
  {
    hide Believes;
    var states := Chain(f.normal, None) + f.continues;
    JoinAllOk(states, types);
    JoinBelieved(entry, Chain(JoinAll(states), None), entry, a, types);
  }

  lemma {:induction false} WhileSafe(s: Stmt, st: State, a: Avail, types: Types, choices: seq<nat>)
    requires s.While? && StateOk(st, types) && TypesOk(types) && StmtOk(s, types) && Believes(st, a, types)
    requires CheckStmt(s, st, types).reports == []
    requires StmtGuardsKeep(s)
    ensures Covers(CheckStmt(s, st, types).flow, RunStmt(s, a, types, choices), types)
    decreases |choices|, s, 0
  {
    hide Believes, NextHead, WhilePasses, Visit, CheckBlock, JoinFrom, StateOk, RunExpr, RunBlock, RunWhile;
    var While(condition, body) := s;
    WhileConverges(condition, body, st, Bound(types) + 1, types);
    var v1 := Visit(condition, st, types, true).state;
    VisitOk(condition, st, types, true);
    var b1 := CheckBlock(body, v1, types).flow;
    CheckBlockOk(body, v1, types);
    var head := NextHead(st, b1);
    NextHeadOk(st, b1, types);
    EntryBelieved(st, b1, a, types);
    var v := Visit(condition, head, types, true).state;
    VisitOk(condition, head, types, true);
    var b := CheckBlock(body, v, types).flow;
    CheckBlockOk(body, v, types);
    WhileRunSafe(condition, body, st, head, a, types, choices);
    var run := RunWhile(condition, body, a, types, choices);
    var breaks := if head == st then b1.breaks else b1.breaks + b.breaks;
    if run.Done? && run.exit == Completes {
      if Believes(v, run.avail, types) {
        JoinBelieved(v, breaks, v, run.avail, types);
      } else {
        var k :| k in b.breaks && Believes(k, run.avail, types);
        JoinBelieved(v, breaks, k, run.avail, types);
      }
    }
  }

  lemma {:induction false} WhileRunSafe(condition: Expr, body: seq<Stmt>, entry: State, head: State, a: Avail,
                                        types: Types, choices: seq<nat>)
    requires StateOk(entry, types) && StateOk(head, types) && TypesOk(types) && Believes(head, a, types)
    requires ExprOk(condition, types) && BlockOk(body, types)
    requires Visit(condition, head, types, true).reports == []
    requires CheckBlock(body, Visit(condition, head, types, true).state, types).reports == []
    requires NextHead(entry, CheckBlock(body, Visit(condition, head, types, true).state, types).flow) == head
    requires GuardsKeep(body)
    ensures var v := Visit(condition, head, types, true).state;
            var r := RunWhile(condition, body, a, types, choices);
            && !r.Unsafe?
            && (r.Done? && r.exit != Returns ==>
                  r.exit == Completes && (Believes(v, r.avail, types)
                                          || SomeBelieves(CheckBlock(body, v, types).flow.breaks, r.avail, types)))
    decreases |choices|, body, 1
  {
    hide Believes, NextHead;
    var v, rv := Visit(condition, head, types, true), RunExpr(condition, a, types, choices, true);
    ExprSafe(condition, head, a, types, choices, true);
    VisitOk(condition, head, types, true);
    if rv.Done? && rv.rest != [] && rv.rest[0] % 2 != 0 {
      var b, rb := CheckBlock(body, v.state, types), RunBlock(body, rv.avail, types, rv.rest[1..]);
      BlockSafe(body, v.state, rv.avail, types, rv.rest[1..]);
      CheckBlockOk(body, v.state, types);
      if rb.Done? && (rb.exit == Completes || rb.exit == Continues) {
        NextHeadBelieved(entry, b.flow, rb, types);
        WhileRunSafe(condition, body, entry, head, rb.avail, types, rb.rest);
      }
    }
  }

  lemma {:induction false} ForSafe(s: Stmt, st: State, a: Avail, types: Types, choices: seq<nat>)
    requires s.For? && StateOk(st, types) && TypesOk(types) && StmtOk(s, types) && Believes(st, a, types)
    requires CheckStmt(s, st, types).reports == []
    requires StmtGuardsKeep(s)
    ensures Covers(CheckStmt(s, st, types).flow, RunStmt(s, a, types, choices), types)
    decreases |choices|, s, 0
  {
    hide Believes, NextHead, ForPasses, Visit, CheckBlock, JoinFrom, StateOk, SetPlace, RunExpr, RunBlock, RunFor;
    var For(binding, iterable, body, span) := s;
    var start, rs := Visit(iterable, st, types, true), RunExpr(iterable, a, types, choices, true);
    ExprSafe(iterable, st, a, types, choices, true);
    VisitOk(iterable, st, types, true);
    if rs.Done? {
      var entry := start.state;
      ForConverges(binding, span, body, entry, Bound(types) + 1, types);
      var v1 := SetPlace(entry, Place(binding, []), Initialized(span));
      SetOk(entry, types, Place(binding, []), Initialized(span));
      var b1 := CheckBlock(body, v1, types).flow;
      CheckBlockOk(body, v1, types);
      var head := NextHead(entry, b1);
      NextHeadOk(entry, b1, types);
      EntryBelieved(entry, b1, rs.avail, types);
      SetOk(head, types, Place(binding, []), Initialized(span));
      var b := CheckBlock(body, SetPlace(head, Place(binding, []), Initialized(span)), types).flow;
      CheckBlockOk(body, SetPlace(head, Place(binding, []), Initialized(span)), types);
      ForRunSafe(binding, span, body, entry, head, rs.avail, types, rs.rest);
      var run := RunFor(binding, body, rs.avail, types, rs.rest);
      var breaks := if head == entry then b1.breaks else b1.breaks + b.breaks;
      if run.Done? && run.exit == Completes {
        if Believes(head, run.avail, types) {
          JoinBelieved(head, breaks, head, run.avail, types);
        } else {
          var k :| k in b.breaks && Believes(k, run.avail, types);
          JoinBelieved(head, breaks, k, run.avail, types);
        }
      }
    }
  }

  lemma {:induction false} ForRunSafe(binding: Root, span: nat, body: seq<Stmt>, entry: State, head: State, a: Avail,
                                      types: Types, choices: seq<nat>)
    requires StateOk(entry, types) && StateOk(head, types) && TypesOk(types) && Believes(head, a, types)
    requires binding in types && BlockOk(body, types)
    requires CheckBlock(body, SetPlace(head, Place(binding, []), Initialized(span)), types).reports == []
    requires NextHead(entry, CheckBlock(body, SetPlace(head, Place(binding, []), Initialized(span)), types).flow)
          == head
    requires GuardsKeep(body)
    ensures var b := CheckBlock(body, SetPlace(head, Place(binding, []), Initialized(span)), types).flow;
            var r := RunFor(binding, body, a, types, choices);
            && !r.Unsafe?
            && (r.Done? && r.exit != Returns ==>
                  r.exit == Completes && (Believes(head, r.avail, types) || SomeBelieves(b.breaks, r.avail, types)))
    decreases |choices|, body, 1
  {
    hide Believes, NextHead;
    if choices != [] && choices[0] % 2 != 0 {
      var v := SetPlace(head, Place(binding, []), Initialized(span));
      WriteBelieved(head, a, types, Place(binding, []), span, []);
      SetOk(head, types, Place(binding, []), Initialized(span));
      var b, rb := CheckBlock(body, v, types), RunBlock(body, a + Below(binding, []), types, choices[1..]);
      BlockSafe(body, v, a + Below(binding, []), types, choices[1..]);
      CheckBlockOk(body, v, types);
      if rb.Done? && (rb.exit == Completes || rb.exit == Continues) {
        NextHeadBelieved(entry, b.flow, rb, types);
        ForRunSafe(binding, span, body, entry, head, rb.avail, types, rb.rest);
      }
    }
  }

  // ------------------------------------------------------------------ functions

  /** `check_function`: parameters and captures start initialised, other locals do not. */
  function InitialState(types: Types, given: set<Root>, spans: Root -> nat): State {
    map r | r in types :: Leaf(if r in given then Initialized(spans(r)) else Uninitialized(spans(r)))
  }

  ghost function InitialAvail(given: set<Root>): Avail {
    iset l: Loc | l.root in given
  }

  /** Move-check soundness: if checking a function body reports nothing, no run of it, of any
      length, uses a place of which some leaf is moved out or uninitialised. */
  lemma AcceptedIsSafe(body: seq<Stmt>, types: Types, given: set<Root>, spans: Root -> nat, choices: seq<nat>)
    requires TypesOk(types) && BlockOk(body, types)
    requires CheckBlock(body, InitialState(types, given, spans), types).reports == []
    requires GuardsKeep(body)
    ensures !RunBlock(body, InitialAvail(given), types, choices).Unsafe?
  {
    var st := InitialState(types, given, spans);
    forall r, l | r in types && IsLeaf(types[r], l) ensures BelievesAt(st, InitialAvail(given), r, l) {
      LeafMeaning(st[r].transition, l);
    }
    BlockSafe(body, st, InitialAvail(given), types, choices);
  }
}
