/** Runs put together from smaller runs: which availabilities a piece of program can leave behind,
    from a set of availabilities it can be entered with.

    What a run does not need of its choices it leaves for what follows, so a run of one piece and a run
    of the next make a run of both.
 */
module MovePieces {
  import opened MoveCheck
  import opened MoveRun
  import opened MoveTree
  import opened MoveTypes
  import opened Wrappers

  // ------------------------------------------------------------------ more choices

  /** The run `r2` has the choices of `r` and then `more`. */
  ghost predicate Framed(r: Run, r2: Run, more: seq<nat>) {
    (r.Unsafe? ==> r2.Unsafe?) && (r.Done? ==> r2 == Done(r.exit, r.avail, r.rest + more))
  }

  /** The same for what always completes. */
  ghost predicate FramedThrough(r: Run, r2: Run, more: seq<nat>) {
    Framed(r, r2, more) && (r.Done? ==> r.exit == Completes)
  }

  lemma {:induction false} ResolveFramed(ty: Ty, p: Path, choices: seq<nat>, more: seq<nat>)
    ensures var r := Resolve(ty, p, choices);
            r.Some? ==> Resolve(ty, p, choices + more) == Some((r.value.0, r.value.1 + more))
    decreases |p|
  {
    if p != [] {
      var sub := if Project(ty, p[0]).Some? then Project(ty, p[0]).value else ty;
      if p[0] == DynamicIndex {
        if choices != [] {
          assert (choices + more)[1..] == choices[1..] + more;
          ResolveFramed(sub, p[1..], choices[1..], more);
        }
      } else {
        ResolveFramed(sub, p[1..], choices, more);
      }
    }
  }

  lemma UseFramed(u: Use, a: Avail, types: Types, choices: seq<nat>, more: seq<nat>)
    ensures FramedThrough(RunUse(u, a, types, choices), RunUse(u, a, types, choices + more), more)
  {
    if u.place.root in types {
      ResolveFramed(types[u.place.root], u.place.path, choices, more);
    }
  }

  lemma {:induction false} UsesFramed(us: seq<Use>, a: Avail, types: Types, choices: seq<nat>, more: seq<nat>)
    ensures FramedThrough(RunUses(us, a, types, choices), RunUses(us, a, types, choices + more), more)
  {
    hide RunUse;
    if us != [] {
      UseFramed(us[0], a, types, choices, more);
      var first := RunUse(us[0], a, types, choices);
      if first.Done? {
        UsesFramed(us[1..], first.avail, types, first.rest, more);
      }
    }
  }

  lemma {:induction false} ExprFramed(e: Expr, a: Avail, types: Types, choices: seq<nat>, more: seq<nat>, own: bool)
    ensures FramedThrough(RunExpr(e, a, types, choices, own), RunExpr(e, a, types, choices + more, own), more)
    decreases e, 1
  {
    hide RunUses, RunOperands;
    OperandsFramed(e.operands, a, types, choices, more);
    var inner := RunOperands(e.operands, a, types, choices);
    if inner.Done? && own {
      UsesFramed(e.uses, inner.avail, types, inner.rest, more);
    }
  }

  lemma {:induction false} OperandsFramed(o: Operands, a: Avail, types: Types, choices: seq<nat>, more: seq<nat>)
    ensures FramedThrough(RunOperands(o, a, types, choices), RunOperands(o, a, types, choices + more), more)
    decreases o, 1
  {
    hide RunExpr, RunAll;
    match o
    case All(parts) => AllFramed(parts, a, types, choices, more);
    case Logical(left, right) =>
      ExprFramed(left, a, types, choices, more, true);
      var first := RunExpr(left, a, types, choices, true);
      if first.Done? && first.rest != [] {
        assert (first.rest + more)[1..] == first.rest[1..] + more;
        ExprFramed(right, first.avail, types, first.rest[1..], more, true);
      }
    case PartOf(base, index) =>
      ExprFramed(base, a, types, choices, more, false);
      var first := RunExpr(base, a, types, choices, false);
      if first.Done? {
        AllFramed(index, first.avail, types, first.rest, more);
      }
  }

  lemma {:induction false} AllFramed(es: seq<Expr>, a: Avail, types: Types, choices: seq<nat>, more: seq<nat>)
    ensures FramedThrough(RunAll(es, a, types, choices), RunAll(es, a, types, choices + more), more)
    decreases es, 0
  {
    hide RunExpr;
    if es != [] {
      ExprFramed(es[0], a, types, choices, more, true);
      var first := RunExpr(es[0], a, types, choices, true);
      if first.Done? {
        AllFramed(es[1..], first.avail, types, first.rest, more);
      }
    }
  }

  lemma {:induction false} PatternFramed(steps: seq<PatternStep>, a: Avail, types: Types, choices: seq<nat>,
                                         more: seq<nat>)
    ensures FramedThrough(RunPattern(steps, a, types, choices), RunPattern(steps, a, types, choices + more), more)
    decreases steps
  {
    hide RunStep;
    if steps != [] {
      StepFramed(steps[0], a, types, choices, more);
      var first := RunStep(steps[0], a, types, choices);
      if first.Done? {
        PatternFramed(steps[1..], first.avail, types, first.rest, more);
      }
    }
  }

  lemma {:induction false} StepFramed(s: PatternStep, a: Avail, types: Types, choices: seq<nat>, more: seq<nat>)
    ensures FramedThrough(RunStep(s, a, types, choices), RunStep(s, a, types, choices + more), more)
    decreases s
  {
    hide RunPattern, RunUse;
    match s
    case Consume(u) => UseFramed(u, a, types, choices, more);
    case Bind(_, _) =>
    case Either(alternatives) =>
      if alternatives != [] && choices != [] {
        assert (choices + more)[1..] == choices[1..] + more;
        PatternFramed(alternatives[choices[0] % |alternatives|].steps, a, types, choices[1..], more);
      }
  }

  lemma WriteFramed(place: Place, compound: bool, a: Avail, types: Types, choices: seq<nat>, more: seq<nat>)
    ensures FramedThrough(RunWrite(place, compound, a, types, choices),
                          RunWrite(place, compound, a, types, choices + more), more)
  {
    if place.root in types {
      ResolveFramed(types[place.root], place.path, choices, more);
    }
  }

  lemma {:induction false} StmtFramed(s: Stmt, a: Avail, types: Types, choices: seq<nat>, more: seq<nat>)
    ensures Framed(RunStmt(s, a, types, choices), RunStmt(s, a, types, choices + more), more)
    decreases |choices|, s, 1
  {
    hide RunExpr, RunAll, RunBlock, RunWhile, RunFor, RunArms, RunWrite;
    match s
    case Let(_, value, _) => ExprFramed(value, a, types, choices, more, true);
    case Assign(place, inputs, compound, value, _) =>
      AllFramed(inputs, a, types, choices, more);
      var i := RunAll(inputs, a, types, choices);
      if i.Done? {
        ExprFramed(value, i.avail, types, i.rest, more, true);
        var v := RunExpr(value, i.avail, types, i.rest, true);
        if v.Done? {
          WriteFramed(place, compound, v.avail, types, v.rest, more);
        }
      }
    case Eval(value) => ExprFramed(value, a, types, choices, more, true);
    case Return(result) => AllFramed(result, a, types, choices, more);
    case If(condition, thenBody, elseBody) =>
      ExprFramed(condition, a, types, choices, more, true);
      var v := RunExpr(condition, a, types, choices, true);
      if v.Done? && v.rest != [] {
        assert (v.rest + more)[1..] == v.rest[1..] + more;
        BlockFramed(if v.rest[0] % 2 == 0 then thenBody else elseBody, v.avail, types, v.rest[1..], more);
      }
    case While(condition, body) => WhileFramed(condition, body, a, types, choices, more);
    case For(binding, iterable, body, _) =>
      ExprFramed(iterable, a, types, choices, more, true);
      var v := RunExpr(iterable, a, types, choices, true);
      if v.Done? {
        ForFramed(binding, body, v.avail, types, v.rest, more);
      }
    case Match(scrutinee, arms) =>
      ExprFramed(scrutinee, a, types, choices, more, true);
      var v := RunExpr(scrutinee, a, types, choices, true);
      if v.Done? {
        ArmsFramed(arms, v.avail, types, v.rest, more);
      }
    case Block(body) => BlockFramed(body, a, types, choices, more);
    case _ =>
  }

  lemma {:induction false} ArmsFramed(arms: seq<Arm>, a: Avail, types: Types, choices: seq<nat>, more: seq<nat>)
    ensures Framed(RunArms(arms, a, types, choices), RunArms(arms, a, types, choices + more), more)
    decreases |choices|, arms, 0
  {
    hide RunPattern, RunAll, RunBlock, RolledBack;
    if arms != [] && choices != [] {
      assert (choices + more)[1..] == choices[1..] + more;
      if choices[0] % 2 == 0 {
        ArmsFramed(arms[1..], a, types, choices[1..], more);
      } else {
        PatternFramed(arms[0].pattern, a, types, choices[1..], more);
        var p := RunPattern(arms[0].pattern, a, types, choices[1..]);
        if p.Done? {
          if arms[0].guard == [] {
            BlockFramed(arms[0].body, p.avail, types, p.rest, more);
          } else {
            AllFramed(arms[0].guard, p.avail, types, p.rest, more);
            var g := RunAll(arms[0].guard, p.avail, types, p.rest);
            if g.Done? && g.rest != [] {
              assert (g.rest + more)[1..] == g.rest[1..] + more;
              if g.rest[0] % 2 == 0 {
                ArmsFramed(arms[1..], RolledBack(arms[0].pattern, a, p.avail, g.avail), types, g.rest[1..], more);
              } else {
                BlockFramed(arms[0].body, g.avail, types, g.rest[1..], more);
              }
            }
          }
        }
      }
    }
  }

  lemma {:induction false} BlockFramed(stmts: seq<Stmt>, a: Avail, types: Types, choices: seq<nat>, more: seq<nat>)
    ensures Framed(RunBlock(stmts, a, types, choices), RunBlock(stmts, a, types, choices + more), more)
    decreases |choices|, stmts, 0
  {
    hide RunStmt;
    if stmts != [] {
      StmtFramed(stmts[0], a, types, choices, more);
      var first := RunStmt(stmts[0], a, types, choices);
      if first.Done? && first.exit == Completes {
        BlockFramed(stmts[1..], first.avail, types, first.rest, more);
      }
    }
  }

  lemma {:induction false} WhileFramed(condition: Expr, body: seq<Stmt>, a: Avail, types: Types, choices: seq<nat>,
                                       more: seq<nat>)
    ensures Framed(RunWhile(condition, body, a, types, choices), RunWhile(condition, body, a, types, choices + more),
                   more)
    decreases |choices|, body, 1
  {
    hide RunExpr, RunBlock;
    ExprFramed(condition, a, types, choices, more, true);
    var v := RunExpr(condition, a, types, choices, true);
    if v.Done? && v.rest != [] {
      assert (v.rest + more)[1..] == v.rest[1..] + more;
      if v.rest[0] % 2 != 0 {
        BlockFramed(body, v.avail, types, v.rest[1..], more);
        var b := RunBlock(body, v.avail, types, v.rest[1..]);
        if b.Done? && (b.exit == Completes || b.exit == Continues) {
          WhileFramed(condition, body, b.avail, types, b.rest, more);
        }
      }
    }
  }

  lemma {:induction false} ForFramed(binding: Root, body: seq<Stmt>, a: Avail, types: Types, choices: seq<nat>,
                                     more: seq<nat>)
    ensures Framed(RunFor(binding, body, a, types, choices), RunFor(binding, body, a, types, choices + more), more)
    decreases |choices|, body, 1
  {
    hide RunBlock;
    if choices != [] {
      assert (choices + more)[1..] == choices[1..] + more;
      if choices[0] % 2 != 0 {
        BlockFramed(body, a + Below(binding, []), types, choices[1..], more);
        var b := RunBlock(body, a + Below(binding, []), types, choices[1..]);
        if b.Done? && (b.exit == Completes || b.exit == Continues) {
          ForFramed(binding, body, b.avail, types, b.rest, more);
        }
      }
    }
  }

  // ------------------------------------------------------------------ pieces

  /** A construct, or constructs in a row: `Then` goes on where the first completes, `Pick` where the
      next choice is `i` of `n`, and `Around` is a loop body and the loop after it. */
  datatype Piece =
    | OfUse(use: Use)
    | OfUses(uses: seq<Use>)
    | OfExpr(expr: Expr, own: bool)
    | OfOperands(operands: Operands)
    | OfAll(exprs: seq<Expr>)
    | OfStep(step: PatternStep)
    | OfPattern(steps: seq<PatternStep>)
    | OfBinds(roots: seq<Root>)
    | OfWrite(place: Place, compound: bool)
    | OfStmt(stmt: Stmt)
    | OfBlock(stmts: seq<Stmt>)
    | OfArms(arms: seq<Arm>)
    | OfWhile(condition: Expr, body: seq<Stmt>)
    | OfFor(binding: Root, body: seq<Stmt>)
    | Leave(exit: Exit)
    | Then(first: Piece, second: Piece)
    | Pick(i: nat, n: nat, chosen: Piece)
    | Around(first: Piece, second: Piece)

  ghost function RunOf(x: Piece, a: Avail, types: Types, choices: seq<nat>): Run
    decreases x
  {
    match x
    case OfUse(u) => RunUse(u, a, types, choices)
    case OfUses(us) => RunUses(us, a, types, choices)
    case OfExpr(e, own) => RunExpr(e, a, types, choices, own)
    case OfOperands(o) => RunOperands(o, a, types, choices)
    case OfAll(es) => RunAll(es, a, types, choices)
    case OfStep(s) => RunStep(s, a, types, choices)
    case OfPattern(steps) => RunPattern(steps, a, types, choices)
    case OfBinds(roots) => Done(Completes, BindRoots(roots, a), choices)
    case OfWrite(place, compound) => RunWrite(place, compound, a, types, choices)
    case OfStmt(s) => RunStmt(s, a, types, choices)
    case OfBlock(stmts) => RunBlock(stmts, a, types, choices)
    case OfArms(arms) => RunArms(arms, a, types, choices)
    case OfWhile(condition, body) => RunWhile(condition, body, a, types, choices)
    case OfFor(binding, body) => RunFor(binding, body, a, types, choices)
    case Leave(exit) => Done(exit, a, choices)
    case Then(y, z) =>
      var r := RunOf(y, a, types, choices);
      if r.Done? && r.exit == Completes then RunOf(z, r.avail, types, r.rest) else r
    case Pick(i, n, y) =>
      if choices == [] || n == 0 || choices[0] % n != i then Cut else RunOf(y, a, types, choices[1..])
    case Around(y, z) =>
      var r := RunOf(y, a, types, choices);
      if !r.Done? || r.exit == Returns then r
      else if r.exit == Breaks then Done(Completes, r.avail, r.rest)
      else RunOf(z, r.avail, types, r.rest)
  }

  lemma ThenRuns(x: Piece, y: Piece, a: Avail, types: Types, choices: seq<nat>)
    ensures var r := RunOf(x, a, types, choices);
            RunOf(Then(x, y), a, types, choices)
            == if r.Done? && r.exit == Completes then RunOf(y, r.avail, types, r.rest) else r
  {
  }

  lemma PickRuns(i: nat, n: nat, y: Piece, a: Avail, types: Types, choices: seq<nat>)
    ensures RunOf(Pick(i, n, y), a, types, choices)
         == if choices == [] || n == 0 || choices[0] % n != i then Cut else RunOf(y, a, types, choices[1..])
  {
  }

  /** A piece, and after it one choice of several. */
  lemma ThenPickRuns(x: Piece, i: nat, n: nat, y: Piece, a: Avail, types: Types, choices: seq<nat>)
    ensures var r := RunOf(x, a, types, choices);
            RunOf(Then(x, Pick(i, n, y)), a, types, choices)
            == if !r.Done? || r.exit != Completes then r
               else if r.rest == [] || n == 0 || r.rest[0] % n != i then Cut
               else RunOf(y, r.avail, types, r.rest[1..])
  {
    hide RunOf;
    ThenRuns(x, Pick(i, n, y), a, types, choices);
    var r := RunOf(x, a, types, choices);
    if r.Done? {
      PickRuns(i, n, y, r.avail, types, r.rest);
    }
  }

  lemma AroundRuns(x: Piece, y: Piece, a: Avail, types: Types, choices: seq<nat>)
    ensures var r := RunOf(x, a, types, choices);
            RunOf(Around(x, y), a, types, choices)
            == if !r.Done? || r.exit == Returns then r
               else if r.exit == Breaks then Done(Completes, r.avail, r.rest)
               else RunOf(y, r.avail, types, r.rest)
  {
  }

  lemma {:induction false} PieceFramed(x: Piece, a: Avail, types: Types, choices: seq<nat>, more: seq<nat>)
    ensures Framed(RunOf(x, a, types, choices), RunOf(x, a, types, choices + more), more)
    decreases x
  {
    hide RunUse, RunUses, RunExpr, RunOperands, RunAll, RunStep, RunPattern, RunWrite, RunStmt, RunBlock, RunArms,
      RunWhile, RunFor, BindRoots;
    match x
    case OfUse(u) => UseFramed(u, a, types, choices, more);
    case OfUses(us) => UsesFramed(us, a, types, choices, more);
    case OfExpr(e, own) => ExprFramed(e, a, types, choices, more, own);
    case OfOperands(o) => OperandsFramed(o, a, types, choices, more);
    case OfAll(es) => AllFramed(es, a, types, choices, more);
    case OfStep(s) => StepFramed(s, a, types, choices, more);
    case OfPattern(steps) => PatternFramed(steps, a, types, choices, more);
    case OfWrite(place, compound) => WriteFramed(place, compound, a, types, choices, more);
    case OfStmt(s) => StmtFramed(s, a, types, choices, more);
    case OfBlock(stmts) => BlockFramed(stmts, a, types, choices, more);
    case OfArms(arms) => ArmsFramed(arms, a, types, choices, more);
    case OfWhile(condition, body) => WhileFramed(condition, body, a, types, choices, more);
    case OfFor(binding, body) => ForFramed(binding, body, a, types, choices, more);
    case Then(y, z) =>
      PieceFramed(y, a, types, choices, more);
      var r := RunOf(y, a, types, choices);
      if r.Done? && r.exit == Completes {
        PieceFramed(z, r.avail, types, r.rest, more);
      }
    case Pick(i, n, y) =>
      if choices != [] {
        assert (choices + more)[1..] == choices[1..] + more;
        PieceFramed(y, a, types, choices[1..], more);
      }
    case Around(y, z) =>
      PieceFramed(y, a, types, choices, more);
      var r := RunOf(y, a, types, choices);
      if r.Done? && (r.exit == Completes || r.exit == Continues) {
        PieceFramed(z, r.avail, types, r.rest, more);
      }
    case _ =>
  }

  // ------------------------------------------------------------------ sets of runs

  /** No run of the piece from any of these goes wrong. */
  ghost predicate Safe(x: Piece, from: iset<Avail>, types: Types) {
    forall a, choices :: a in from ==> !RunOf(x, a, types, choices).Unsafe?
  }

  /** What runs of the piece leave behind by an exit. */
  ghost function Outs(x: Piece, from: iset<Avail>, exit: Exit, types: Types): iset<Avail> {
    iset b: Avail | exists a, choices :: a in from && RunOf(x, a, types, choices) == Done(exit, b, [])
  }

  lemma InOuts(x: Piece, from: iset<Avail>, exit: Exit, types: Types, a: Avail, choices: seq<nat>, b: Avail)
    requires a in from && RunOf(x, a, types, choices) == Done(exit, b, [])
    ensures b in Outs(x, from, exit, types)
  {
    hide RunOf;
  }

  lemma FromOuts(x: Piece, from: iset<Avail>, exit: Exit, types: Types, b: Avail) returns (a: Avail, choices: seq<nat>)
    requires b in Outs(x, from, exit, types)
    ensures a in from && RunOf(x, a, types, choices) == Done(exit, b, [])
  {
    hide RunOf;
    a, choices :| a in from && RunOf(x, a, types, choices) == Done(exit, b, []);
  }

  /** Every run of `x` that is not cut off is the run of `z`. */
  ghost predicate Within(x: Piece, z: Piece, types: Types) {
    forall a, choices :: WithinAt(x, z, a, types, choices)
  }

  ghost predicate WithinAt(x: Piece, z: Piece, a: Avail, types: Types, choices: seq<nat>) {
    RunOf(x, a, types, choices).Cut? || RunOf(x, a, types, choices) == RunOf(z, a, types, choices)
  }

  lemma Narrow(x: Piece, z: Piece, from: iset<Avail>, types: Types)
    requires Within(x, z, types) && Safe(z, from, types)
    ensures Safe(x, from, types)
    ensures forall exit :: Outs(x, from, exit, types) <= Outs(z, from, exit, types)
  {
    hide RunOf;
    forall exit, b | b in Outs(x, from, exit, types) ensures b in Outs(z, from, exit, types) {
      var a, choices := FromOuts(x, from, exit, types, b);
      assert WithinAt(x, z, a, types, choices);
      InOuts(z, from, exit, types, a, choices, b);
    }
    forall a, choices | a in from ensures !RunOf(x, a, types, choices).Unsafe? {
      assert WithinAt(x, z, a, types, choices);
    }
  }

  lemma Wider(x: Piece, from: iset<Avail>, more: iset<Avail>, types: Types)
    requires from <= more
    ensures Safe(x, more, types) ==> Safe(x, from, types)
    ensures forall exit :: Outs(x, from, exit, types) <= Outs(x, more, exit, types)
  {
    hide RunOf;
    forall exit, b | b in Outs(x, from, exit, types) ensures b in Outs(x, more, exit, types) {
      var a, choices := FromOuts(x, from, exit, types, b);
      InOuts(x, more, exit, types, a, choices, b);
    }
  }

  /** What follows a piece that was left by an exit `through`. */
  lemma FollowedBy(z: Piece, x: Piece, y: Piece, from: iset<Avail>, through: Exit, types: Types)
    requires forall a, choices ::
               var r := RunOf(x, a, types, choices);
               r.Done? && r.exit == through ==> RunOf(z, a, types, choices) == RunOf(y, r.avail, types, r.rest)
    requires Safe(z, from, types)
    ensures Safe(y, Outs(x, from, through, types), types)
    ensures forall exit :: Outs(y, Outs(x, from, through, types), exit, types) <= Outs(z, from, exit, types)
  {
    hide RunOf;
    var mid := Outs(x, from, through, types);
    forall b, choices | b in mid ensures !RunOf(y, b, types, choices).Unsafe? {
      var a, all := Joined(z, x, y, from, through, types, b, choices);
    }
    forall exit, d | d in Outs(y, mid, exit, types) ensures d in Outs(z, from, exit, types) {
      var b, choices := FromOuts(y, mid, exit, types, d);
      var a, all := Joined(z, x, y, from, through, types, b, choices);
      InOuts(z, from, exit, types, a, all, d);
    }
  }

  lemma Joined(z: Piece, x: Piece, y: Piece, from: iset<Avail>, through: Exit, types: Types, b: Avail,
               choices: seq<nat>)
    returns (a: Avail, all: seq<nat>)
    requires forall a, choices ::
               var r := RunOf(x, a, types, choices);
               r.Done? && r.exit == through ==> RunOf(z, a, types, choices) == RunOf(y, r.avail, types, r.rest)
    requires b in Outs(x, from, through, types)
    ensures a in from && RunOf(z, a, types, all) == RunOf(y, b, types, choices)
  {
    hide RunOf;
    var first;
    a, first := FromOuts(x, from, through, types, b);
    all := first + choices;
    PieceFramed(x, a, types, first, choices);
    assert [] + choices == choices;
    assert RunOf(x, a, types, all) == Done(through, b, choices);
  }

  lemma ThenSplits(x: Piece, y: Piece, from: iset<Avail>, types: Types)
    requires Safe(Then(x, y), from, types)
    ensures Safe(x, from, types) && Safe(y, Outs(x, from, Completes, types), types)
    ensures forall exit :: Outs(y, Outs(x, from, Completes, types), exit, types) <= Outs(Then(x, y), from, exit, types)
    ensures forall exit :: exit != Completes ==> Outs(x, from, exit, types) <= Outs(Then(x, y), from, exit, types)
  {
    FollowedBy(Then(x, y), x, y, from, Completes, types);
    forall a, choices | a in from ensures !RunOf(x, a, types, choices).Unsafe? {
      assert !RunOf(Then(x, y), a, types, choices).Unsafe?;
    }
    forall exit, b | exit != Completes && b in Outs(x, from, exit, types)
      ensures b in Outs(Then(x, y), from, exit, types)
    {
      var a, choices := FromOuts(x, from, exit, types, b);
      InOuts(Then(x, y), from, exit, types, a, choices, b);
    }
  }

  lemma PickSplits(i: nat, n: nat, y: Piece, from: iset<Avail>, types: Types)
    requires i < n && Safe(Pick(i, n, y), from, types)
    ensures Safe(y, from, types)
    ensures forall exit :: Outs(y, from, exit, types) <= Outs(Pick(i, n, y), from, exit, types)
  {
    forall a, choices ensures RunOf(Pick(i, n, y), a, types, [i] + choices) == RunOf(y, a, types, choices) {
      assert ([i] + choices)[1..] == choices;
    }
    forall exit, b | b in Outs(y, from, exit, types) ensures b in Outs(Pick(i, n, y), from, exit, types) {
      var a, choices := FromOuts(y, from, exit, types, b);
      InOuts(Pick(i, n, y), from, exit, types, a, [i] + choices, b);
    }
    forall a, choices | a in from ensures !RunOf(y, a, types, choices).Unsafe? {
      assert !RunOf(Pick(i, n, y), a, types, [i] + choices).Unsafe?;
    }
  }

  lemma AroundSplits(x: Piece, y: Piece, from: iset<Avail>, types: Types)
    requires Safe(Around(x, y), from, types)
    ensures var back := Outs(x, from, Completes, types) + Outs(x, from, Continues, types);
            && Safe(x, from, types) && Safe(y, back, types)
            && forall exit :: Outs(y, back, exit, types) <= Outs(Around(x, y), from, exit, types)
    ensures Outs(x, from, Breaks, types) <= Outs(Around(x, y), from, Completes, types)
  {
    var z := Around(x, y);
    FollowedBy(z, x, y, from, Completes, types);
    FollowedBy(z, x, y, from, Continues, types);
    forall a, choices | a in from ensures !RunOf(x, a, types, choices).Unsafe? {
      assert !RunOf(z, a, types, choices).Unsafe?;
    }
    forall b | b in Outs(x, from, Breaks, types) ensures b in Outs(z, from, Completes, types) {
      var a, choices := FromOuts(x, from, Breaks, types, b);
      InOuts(z, from, Completes, types, a, choices, b);
    }
    var back := Outs(x, from, Completes, types) + Outs(x, from, Continues, types);
    forall exit, d | d in Outs(y, back, exit, types) ensures d in Outs(z, from, exit, types) {
      var b, choices := FromOuts(y, back, exit, types, d);
      if b in Outs(x, from, Completes, types) {
        InOuts(y, Outs(x, from, Completes, types), exit, types, b, choices, d);
      } else {
        InOuts(y, Outs(x, from, Continues, types), exit, types, b, choices, d);
      }
    }
  }
}
