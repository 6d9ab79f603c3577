/** Closure bodies (src/check/moves.rs:801-839): a closure may be called again, so what it captured must
    outlive every call.  An accepted body moves no capture on any path, hence any number of calls in
    succession is safe.
 */
module MoveCaptures {
  import opened MoveCheck
  import opened MoveRun
  import opened MoveTree
  import opened MoveTypes
  import opened Wrappers

  // ------------------------------------------------------------------ every use of a body

  function PatternUses(steps: seq<PatternStep>): seq<Use>
    decreases steps
  {
    if steps == [] then [] else StepUses(steps[0]) + PatternUses(steps[1..])
  }

  function StepUses(s: PatternStep): seq<Use>
    decreases s
  {
    match s
    case Consume(u) => [u]
    case Bind(_, _) => []
    case Either(alternatives) => EitherUses(alternatives)
  }

  function EitherUses(alternatives: seq<Alternative>): seq<Use>
    decreases alternatives
  {
    if alternatives == [] then [] else PatternUses(alternatives[0].steps) + EitherUses(alternatives[1..])
  }

  /** The uses a statement performs when every part of it is reached. */
  function StmtUses(s: Stmt): seq<Use>
    decreases s
  {
    match s
    case Let(_, value, _) => Performed(value, true)
    case Assign(_, inputs, _, value, _) => PerformedAll(inputs) + Performed(value, true)
    case Eval(value) => Performed(value, true)
    case Return(result) => PerformedAll(result)
    case If(condition, a, b) => Performed(condition, true) + (BlockUses(a) + BlockUses(b))
    case While(condition, body) => Performed(condition, true) + BlockUses(body)
    case For(_, iterable, body, _) => Performed(iterable, true) + BlockUses(body)
    case Match(scrutinee, arms) => Performed(scrutinee, true) + ArmsUses(arms)
    case Block(body) => BlockUses(body)
    case _ => []
  }

  function BlockUses(stmts: seq<Stmt>): seq<Use>
    decreases stmts
  {
    if stmts == [] then [] else StmtUses(stmts[0]) + BlockUses(stmts[1..])
  }

  function ArmsUses(arms: seq<Arm>): seq<Use>
    decreases arms
  {
    if arms == [] then []
    else
      PatternUses(arms[0].pattern) + (PerformedAll(arms[0].guard) + BlockUses(arms[0].body)) + ArmsUses(arms[1..])
  }

  // ------------------------------------------------------------------ the moves that no state allows

  /** No capture is moved, and nothing out of an indexed place. */
  predicate MovesAllowed(us: seq<Use>, types: Types) {
    forall u :: u in us && u.moves ==>
      && !u.place.root.Capture?
      && !(u.place.root in types && IndexedMove(types[u.place.root], u.place.path))
  }

  /** `r` is what there is to say against the use `u` whatever was moved before it. */
  predicate Forbids(u: Use, r: Report, types: Types) {
    u.moves && u.span == r.span &&
    (if u.place.root.Capture? then r.reason == CaptureMoved
     else r.reason == IndexMoved && u.place.root in types && IndexedMove(types[u.place.root], u.place.path))
  }

  predicate Forbidden(r: Report, us: seq<Use>, types: Types) {
    exists u :: u in us && Forbids(u, r, types)
  }

  lemma ForbiddenNothing(r: Report, types: Types)
    ensures !Forbidden(r, [], types)
  {
  }

  lemma ForbiddenBoth(r: Report, us: seq<Use>, vs: seq<Use>, types: Types)
    ensures Forbidden(r, us + vs, types) <==> Forbidden(r, us, types) || Forbidden(r, vs, types)
  {
    forall u ensures u in us + vs <==> u in us || u in vs {
    }
  }

  lemma AllowedBoth(us: seq<Use>, vs: seq<Use>, types: Types)
    ensures MovesAllowed(us + vs, types) <==> MovesAllowed(us, types) && MovesAllowed(vs, types)
  {
    forall u ensures u in us + vs <==> u in us || u in vs {
    }
  }

  lemma {:induction false} UsesReported(r: Report, us: seq<Use>, st: State, types: Types)
    requires r.reason != NotAvailable
    ensures r in VisitUses(us, st, types).reports <==> Forbidden(r, us, types)
  {
    if us == [] {
      ForbiddenNothing(r, types);
    } else {
      UsesReported(r, us[1..], VisitUse(us[0], st, types).state, types);
      assert r in VisitUse(us[0], st, types).reports <==> Forbids(us[0], r, types);
      assert us == [us[0]] + us[1..];
      ForbiddenBoth(r, [us[0]], us[1..], types);
      assert Forbidden(r, [us[0]], types) <==> Forbids(us[0], r, types) by {
        assert us[0] in [us[0]];
      }
    }
  }

  lemma {:induction false} ExprReported(r: Report, e: Expr, st: State, types: Types, own: bool)
    requires r.reason != NotAvailable
    ensures r in Visit(e, st, types, own).reports <==> Forbidden(r, Performed(e, own), types)
    decreases e, 1
  {
    hide VisitUses, Forbidden;
    OperandsReported(r, e.operands, st, types);
    if own {
      UsesReported(r, e.uses, VisitOperands(e.operands, st, types).state, types);
    }
    ForbiddenNothing(r, types);
    ForbiddenBoth(r, PerformedOperands(e.operands), if own then e.uses else [], types);
  }

  lemma {:induction false} OperandsReported(r: Report, o: Operands, st: State, types: Types)
    requires r.reason != NotAvailable
    ensures r in VisitOperands(o, st, types).reports <==> Forbidden(r, PerformedOperands(o), types)
    decreases o, 1
  {
    hide Forbidden;
    match o
    case All(parts) => AllReported(r, parts, st, types);
    case Logical(left, right) =>
      ExprReported(r, left, st, types, true);
      ExprReported(r, right, Visit(left, st, types, true).state, types, true);
      ForbiddenBoth(r, Performed(left, true), Performed(right, true), types);
    case PartOf(base, index) =>
      ExprReported(r, base, st, types, false);
      AllReported(r, index, Visit(base, st, types, false).state, types);
      ForbiddenBoth(r, Performed(base, false), PerformedAll(index), types);
  }

  lemma {:induction false} AllReported(r: Report, es: seq<Expr>, st: State, types: Types)
    requires r.reason != NotAvailable
    ensures r in VisitAll(es, st, types).reports <==> Forbidden(r, PerformedAll(es), types)
    decreases es, 0
  {
    hide Forbidden;
    if es == [] {
      ForbiddenNothing(r, types);
    } else {
      ExprReported(r, es[0], st, types, true);
      AllReported(r, es[1..], Visit(es[0], st, types, true).state, types);
      ForbiddenBoth(r, Performed(es[0], true), PerformedAll(es[1..]), types);
    }
  }

  lemma {:induction false} PatternReported(r: Report, steps: seq<PatternStep>, st: State, types: Types)
    requires r.reason != NotAvailable
    ensures r in ApplyPattern(steps, st, types).reports <==> Forbidden(r, PatternUses(steps), types)
    decreases steps
  {
    hide Forbidden;
    if steps == [] {
      ForbiddenNothing(r, types);
    } else {
      StepReported(r, steps[0], st, types);
      PatternReported(r, steps[1..], ApplyStep(steps[0], st, types).state, types);
      ForbiddenBoth(r, StepUses(steps[0]), PatternUses(steps[1..]), types);
    }
  }

  lemma {:induction false} StepReported(r: Report, s: PatternStep, st: State, types: Types)
    requires r.reason != NotAvailable
    ensures r in ApplyStep(s, st, types).reports <==> Forbidden(r, StepUses(s), types)
    decreases s
  {
    match s
    case Consume(u) =>
      UsesReported(r, [u], st, types);
      assert VisitUses([u], st, types).reports == VisitUse(u, st, types).reports;
    case Bind(_, _) => ForbiddenNothing(r, types);
    case Either(alternatives) => EitherReported(r, alternatives, st, types);
  }

  lemma {:induction false} EitherReported(r: Report, alternatives: seq<Alternative>, st: State, types: Types)
    requires r.reason != NotAvailable
    ensures r in ApplyEither(alternatives, st, types).reports <==> Forbidden(r, EitherUses(alternatives), types)
    decreases alternatives
  {
    hide Forbidden;
    if alternatives == [] {
      ForbiddenNothing(r, types);
    } else {
      PatternReported(r, alternatives[0].steps, st, types);
      EitherReported(r, alternatives[1..], st, types);
      ForbiddenBoth(r, PatternUses(alternatives[0].steps), EitherUses(alternatives[1..]), types);
    }
  }

  lemma {:induction false} StmtReported(r: Report, s: Stmt, st: State, types: Types)
    requires r.reason != NotAvailable
    ensures r in CheckStmt(s, st, types).reports <==> Forbidden(r, StmtUses(s), types)
    decreases s, 0, 0
  {
    hide Visit, VisitAll, Forbidden, Performed, PerformedAll, JoinAll, WhilePasses, ForPasses;
    match s
    case Let(_, value, _) => ExprReported(r, value, st, types, true);
    case Assign(_, inputs, _, value, _) =>
      AllReported(r, inputs, st, types);
      ExprReported(r, value, VisitAll(inputs, st, types).state, types, true);
      ForbiddenBoth(r, PerformedAll(inputs), Performed(value, true), types);
    case Eval(value) => ExprReported(r, value, st, types, true);
    case Return(result) => AllReported(r, result, st, types);
    case If(condition, a, b) =>
      ExprReported(r, condition, st, types, true);
      var v := Visit(condition, st, types, true).state;
      BlockReported(r, a, v, types);
      BlockReported(r, b, v, types);
      ForbiddenBoth(r, BlockUses(a), BlockUses(b), types);
      ForbiddenBoth(r, Performed(condition, true), BlockUses(a) + BlockUses(b), types);
    case While(condition, body) =>
      WhileReported(r, condition, body, st, st, [], Bound(types) + 1, types);
    case For(binding, iterable, body, span) =>
      ExprReported(r, iterable, st, types, true);
      var v := Visit(iterable, st, types, true).state;
      ForReported(r, binding, span, body, v, v, [], Bound(types) + 1, types);
      ForbiddenBoth(r, Performed(iterable, true), BlockUses(body), types);
    case Match(scrutinee, arms) =>
      ExprReported(r, scrutinee, st, types, true);
      ArmsReported(r, arms, Visit(scrutinee, st, types, true).state, types);
      ForbiddenBoth(r, Performed(scrutinee, true), ArmsUses(arms), types);
    case Block(body) => BlockReported(r, body, st, types);
    case _ => ForbiddenNothing(r, types);
  }

  lemma {:induction false} WhileReported(r: Report, condition: Expr, body: seq<Stmt>, entry: State, head: State,
                                         breaks: seq<State>, n: nat, types: Types)
    requires r.reason != NotAvailable && n > 0
    ensures r in WhilePasses(condition, body, entry, head, breaks, n, types).reports <==>
              Forbidden(r, Performed(condition, true) + BlockUses(body), types)
    decreases body, 1, n
  {
    hide Visit, CheckBlock, Forbidden, NextHead, JoinFrom;
    ExprReported(r, condition, head, types, true);
    var v := Visit(condition, head, types, true).state;
    BlockReported(r, body, v, types);
    ForbiddenBoth(r, Performed(condition, true), BlockUses(body), types);
    var b := CheckBlock(body, v, types);
    var next := NextHead(entry, b.flow);
    if n > 1 {
      WhileReported(r, condition, body, entry, next, breaks + b.flow.breaks, n - 1, types);
    } else {
      ExprReported(r, condition, next, types, true);
    }
  }

  lemma {:induction false} ForReported(r: Report, binding: Root, span: nat, body: seq<Stmt>, entry: State,
                                       head: State, breaks: seq<State>, n: nat, types: Types)
    requires r.reason != NotAvailable && n > 0
    ensures r in ForPasses(binding, span, body, entry, head, breaks, n, types).reports <==>
              Forbidden(r, BlockUses(body), types)
    decreases body, 1, n
  {
    hide CheckBlock, Forbidden, NextHead, JoinFrom, SetPlace;
    var start := SetPlace(head, Place(binding, []), Initialized(span));
    BlockReported(r, body, start, types);
    var b := CheckBlock(body, start, types);
    if n > 1 {
      ForReported(r, binding, span, body, entry, NextHead(entry, b.flow), breaks + b.flow.breaks, n - 1, types);
    }
  }

  /** Exactly the forbidden moves of a body are reported as such, in code that is never reached as well. */
  lemma {:induction false} BlockReported(r: Report, stmts: seq<Stmt>, st: State, types: Types)
    requires r.reason != NotAvailable
    ensures r in CheckBlock(stmts, st, types).reports <==> Forbidden(r, BlockUses(stmts), types)
    decreases stmts, 0, 0
  {
    hide CheckStmt, Forbidden;
    if stmts == [] {
      ForbiddenNothing(r, types);
    } else {
      StmtReported(r, stmts[0], st, types);
      var first := CheckStmt(stmts[0], st, types).flow;
      if first.normal.Some? {
        BlockReported(r, stmts[1..], first.normal.value, types);
      } else {
        DeadReported(r, stmts[1..], if first.dead.Some? then first.dead.value else st, types);
      }
      ForbiddenBoth(r, StmtUses(stmts[0]), BlockUses(stmts[1..]), types);
    }
  }

  lemma {:induction false} DeadReported(r: Report, stmts: seq<Stmt>, st: State, types: Types)
    requires r.reason != NotAvailable
    ensures r in DeadReports(stmts, st, types) <==> Forbidden(r, BlockUses(stmts), types)
    decreases stmts, 0, 0
  {
    hide CheckStmt, Forbidden;
    if stmts == [] {
      ForbiddenNothing(r, types);
    } else {
      StmtReported(r, stmts[0], st, types);
      var first := CheckStmt(stmts[0], st, types).flow;
      DeadReported(r, stmts[1..], if first.normal.Some? then first.normal.value else st, types);
      ForbiddenBoth(r, StmtUses(stmts[0]), BlockUses(stmts[1..]), types);
    }
  }

  lemma {:induction false} ArmsReported(r: Report, arms: seq<Arm>, st: State, types: Types)
    requires r.reason != NotAvailable
    ensures r in CheckArms(arms, st, types).reports <==> Forbidden(r, ArmsUses(arms), types)
    decreases arms, 0, 0
  {
    hide ApplyPattern, VisitAll, CheckBlock, Forbidden;
    if arms == [] {
      ForbiddenNothing(r, types);
    } else {
      var p := ApplyPattern(arms[0].pattern, st, types);
      PatternReported(r, arms[0].pattern, st, types);
      AllReported(r, arms[0].guard, p.state, types);
      BlockReported(r, arms[0].body, VisitAll(arms[0].guard, p.state, types).state, types);
      ArmsReported(r, arms[1..], st, types);
      var (us, gs, bs) := (PatternUses(arms[0].pattern), PerformedAll(arms[0].guard), BlockUses(arms[0].body));
      ForbiddenBoth(r, gs, bs, types);
      ForbiddenBoth(r, us, gs + bs, types);
      ForbiddenBoth(r, us + (gs + bs), ArmsUses(arms[1..]), types);
    }
  }

  /** So accepted bodies move only what may be moved. */
  lemma BlockVisited(stmts: seq<Stmt>, st: State, types: Types)
    requires CheckBlock(stmts, st, types).reports == []
    ensures MovesAllowed(BlockUses(stmts), types)
  {
    hide CheckBlock, BlockUses, IndexedMove;
    forall u | u in BlockUses(stmts) && u.moves
      ensures !u.place.root.Capture?
      ensures !(u.place.root in types && IndexedMove(types[u.place.root], u.place.path))
    {
      var r := Report(u.span, if u.place.root.Capture? then CaptureMoved else IndexMoved);
      BlockReported(r, stmts, st, types);
      assert !Forbids(u, r, types);
    }
  }

  // ------------------------------------------------------------------ runs that move no capture

  predicate KeepsCaptures(us: seq<Use>) {
    forall u :: u in us && u.moves ==> !u.place.root.Capture?
  }

  lemma KeepsBoth(us: seq<Use>, vs: seq<Use>)
    ensures KeepsCaptures(us + vs) <==> KeepsCaptures(us) && KeepsCaptures(vs)
  {
    if KeepsCaptures(us + vs) {
      forall u | u in us ensures u in us + vs {
      }
      forall u | u in vs ensures u in us + vs {
      }
    }
  }

  /** Nothing captured is lost from `a` to `b`. */
  ghost predicate CapturesKept(a: Avail, b: Avail) {
    forall l: Loc :: l.root.Capture? && l in a ==> l in b
  }

  ghost predicate RunKeeps(a: Avail, r: Run) {
    r.Done? ==> CapturesKept(a, r.avail)
  }

  lemma {:induction false} UsesRun(us: seq<Use>, a: Avail, types: Types, choices: seq<nat>)
    requires KeepsCaptures(us)
    ensures RunKeeps(a, RunUses(us, a, types, choices))
  {
    if us != [] {
      var first := RunUse(us[0], a, types, choices);
      if first.Done? {
        UsesRun(us[1..], first.avail, types, first.rest);
      }
    }
  }

  lemma {:induction false} ExprRun(e: Expr, a: Avail, types: Types, choices: seq<nat>, own: bool)
    requires KeepsCaptures(Performed(e, own))
    ensures RunKeeps(a, RunExpr(e, a, types, choices, own))
    decreases e, 1
  {
    hide RunUses, KeepsCaptures;
    KeepsBoth(PerformedOperands(e.operands), if own then e.uses else []);
    OperandsRun(e.operands, a, types, choices);
    var inner := RunOperands(e.operands, a, types, choices);
    if inner.Done? && own {
      UsesRun(e.uses, inner.avail, types, inner.rest);
    }
  }

  lemma {:induction false} OperandsRun(o: Operands, a: Avail, types: Types, choices: seq<nat>)
    requires KeepsCaptures(PerformedOperands(o))
    ensures RunKeeps(a, RunOperands(o, a, types, choices))
    decreases o, 1
  {
    hide KeepsCaptures;
    match o
    case All(parts) => AllRun(parts, a, types, choices);
    case Logical(left, right) =>
      KeepsBoth(Performed(left, true), Performed(right, true));
      ExprRun(left, a, types, choices, true);
      var first := RunExpr(left, a, types, choices, true);
      if first.Done? && first.rest != [] {
        ExprRun(right, first.avail, types, first.rest[1..], true);
      }
    case PartOf(base, index) =>
      KeepsBoth(Performed(base, false), PerformedAll(index));
      ExprRun(base, a, types, choices, false);
      var first := RunExpr(base, a, types, choices, false);
      if first.Done? {
        AllRun(index, first.avail, types, first.rest);
      }
  }

  lemma {:induction false} AllRun(es: seq<Expr>, a: Avail, types: Types, choices: seq<nat>)
    requires KeepsCaptures(PerformedAll(es))
    ensures RunKeeps(a, RunAll(es, a, types, choices))
    decreases es, 0
  {
    hide KeepsCaptures;
    if es != [] {
      KeepsBoth(Performed(es[0], true), PerformedAll(es[1..]));
      ExprRun(es[0], a, types, choices, true);
      var first := RunExpr(es[0], a, types, choices, true);
      if first.Done? {
        AllRun(es[1..], first.avail, types, first.rest);
      }
    }
  }

  lemma {:induction false} PatternRun(steps: seq<PatternStep>, a: Avail, types: Types, choices: seq<nat>)
    requires KeepsCaptures(PatternUses(steps))
    ensures RunKeeps(a, RunPattern(steps, a, types, choices))
    decreases steps
  {
    hide KeepsCaptures;
    if steps != [] {
      KeepsBoth(StepUses(steps[0]), PatternUses(steps[1..]));
      StepRun(steps[0], a, types, choices);
      var first := RunStep(steps[0], a, types, choices);
      if first.Done? {
        PatternRun(steps[1..], first.avail, types, first.rest);
      }
    }
  }

  lemma {:induction false} StepRun(s: PatternStep, a: Avail, types: Types, choices: seq<nat>)
    requires KeepsCaptures(StepUses(s))
    ensures RunKeeps(a, RunStep(s, a, types, choices))
    decreases s
  {
    match s
    case Consume(u) => assert u in StepUses(s);
    case Bind(_, _) =>
    case Either(alternatives) =>
      if alternatives != [] && choices != [] {
        var i := choices[0] % |alternatives|;
        AlternativeKeeps(alternatives, i);
        PatternRun(alternatives[i].steps, a, types, choices[1..]);
      }
  }

  lemma {:induction false} AlternativeKeeps(alternatives: seq<Alternative>, i: nat)
    requires i < |alternatives| && KeepsCaptures(EitherUses(alternatives))
    ensures KeepsCaptures(PatternUses(alternatives[i].steps))
    decreases i
  {
    hide KeepsCaptures;
    KeepsBoth(PatternUses(alternatives[0].steps), EitherUses(alternatives[1..]));
    if i > 0 {
      AlternativeKeeps(alternatives[1..], i - 1);
    }
  }

  lemma {:induction false} BindRun(roots: seq<Root>, a: Avail)
    ensures CapturesKept(a, BindRoots(roots, a))
  {
    if roots != [] {
      BindRun(roots[1..], a + Below(roots[0], []));
    }
  }

  lemma {:induction false} StmtRun(s: Stmt, a: Avail, types: Types, choices: seq<nat>)
    requires KeepsCaptures(StmtUses(s))
    ensures RunKeeps(a, RunStmt(s, a, types, choices))
    decreases |choices|, s, 0
  {
    hide KeepsCaptures, RunExpr, RunAll, Performed, PerformedAll;
    match s
    case Let(bindings, value, _) =>
      ExprRun(value, a, types, choices, true);
      var v := RunExpr(value, a, types, choices, true);
      if v.Done? {
        BindRun(bindings, v.avail);
      }
    case Assign(place, inputs, compound, value, _) =>
      KeepsBoth(PerformedAll(inputs), Performed(value, true));
      AllRun(inputs, a, types, choices);
      var i := RunAll(inputs, a, types, choices);
      if i.Done? {
        ExprRun(value, i.avail, types, i.rest, true);
      }
    case Eval(value) => ExprRun(value, a, types, choices, true);
    case Return(result) => AllRun(result, a, types, choices);
    case If(condition, p, q) =>
      KeepsBoth(BlockUses(p), BlockUses(q));
      KeepsBoth(Performed(condition, true), BlockUses(p) + BlockUses(q));
      ExprRun(condition, a, types, choices, true);
      var v := RunExpr(condition, a, types, choices, true);
      if v.Done? && v.rest != [] {
        BlockRun(if v.rest[0] % 2 == 0 then p else q, v.avail, types, v.rest[1..]);
      }
    case While(condition, body) =>
      KeepsBoth(Performed(condition, true), BlockUses(body));
      WhileRun(condition, body, a, types, choices);
    case For(binding, iterable, body, _) =>
      KeepsBoth(Performed(iterable, true), BlockUses(body));
      ExprRun(iterable, a, types, choices, true);
      var v := RunExpr(iterable, a, types, choices, true);
      if v.Done? {
        ForRun(binding, body, v.avail, types, v.rest);
      }
    case Match(scrutinee, arms) =>
      KeepsBoth(Performed(scrutinee, true), ArmsUses(arms));
      ExprRun(scrutinee, a, types, choices, true);
      var v := RunExpr(scrutinee, a, types, choices, true);
      if v.Done? {
        ArmsRun(arms, v.avail, types, v.rest);
      }
    case Block(body) => BlockRun(body, a, types, choices);
    case _ =>
  }

  lemma {:induction false} BlockRun(stmts: seq<Stmt>, a: Avail, types: Types, choices: seq<nat>)
    requires KeepsCaptures(BlockUses(stmts))
    ensures RunKeeps(a, RunBlock(stmts, a, types, choices))
    decreases |choices|, stmts, 0
  {
    hide KeepsCaptures, RunStmt;
    if stmts != [] {
      KeepsBoth(StmtUses(stmts[0]), BlockUses(stmts[1..]));
      StmtRun(stmts[0], a, types, choices);
      var first := RunStmt(stmts[0], a, types, choices);
      if first.Done? {
        BlockRun(stmts[1..], first.avail, types, first.rest);
      }
    }
  }

  lemma {:induction false} WhileRun(condition: Expr, body: seq<Stmt>, a: Avail, types: Types, choices: seq<nat>)
    requires KeepsCaptures(Performed(condition, true)) && KeepsCaptures(BlockUses(body))
    ensures RunKeeps(a, RunWhile(condition, body, a, types, choices))
    decreases |choices|, body, 1
  {
    hide KeepsCaptures, RunExpr, RunBlock;
    ExprRun(condition, a, types, choices, true);
    var v := RunExpr(condition, a, types, choices, true);
    if v.Done? && v.rest != [] && v.rest[0] % 2 != 0 {
      BlockRun(body, v.avail, types, v.rest[1..]);
      var b := RunBlock(body, v.avail, types, v.rest[1..]);
      if b.Done? {
        WhileRun(condition, body, b.avail, types, b.rest);
      }
    }
  }

  lemma {:induction false} ForRun(binding: Root, body: seq<Stmt>, a: Avail, types: Types, choices: seq<nat>)
    requires KeepsCaptures(BlockUses(body))
    ensures RunKeeps(a, RunFor(binding, body, a, types, choices))
    decreases |choices|, body, 1
  {
    hide KeepsCaptures, RunBlock;
    if choices != [] && choices[0] % 2 != 0 {
      BlockRun(body, a + Below(binding, []), types, choices[1..]);
      var b := RunBlock(body, a + Below(binding, []), types, choices[1..]);
      if b.Done? {
        ForRun(binding, body, b.avail, types, b.rest);
      }
    }
  }

  lemma {:induction false} ArmsRun(arms: seq<Arm>, a: Avail, types: Types, choices: seq<nat>)
    requires KeepsCaptures(ArmsUses(arms))
    ensures RunKeeps(a, RunArms(arms, a, types, choices))
    decreases |choices|, arms, 0
  {
    hide KeepsCaptures, RunPattern, RunAll, RunBlock, RolledBack;
    if arms != [] && choices != [] {
      ArmKeeps(arms);
      if choices[0] % 2 == 0 {
        ArmsRun(arms[1..], a, types, choices[1..]);
      } else {
        PatternRun(arms[0].pattern, a, types, choices[1..]);
        var p := RunPattern(arms[0].pattern, a, types, choices[1..]);
        if p.Done? {
          if arms[0].guard == [] {
            BlockRun(arms[0].body, p.avail, types, p.rest);
          } else {
            AllRun(arms[0].guard, p.avail, types, p.rest);
            var g := RunAll(arms[0].guard, p.avail, types, p.rest);
            if g.Done? && g.rest != [] {
              RollbackKeeps(arms[0].pattern, a, p.avail, g.avail);
              ArmsRun(arms[1..], RolledBack(arms[0].pattern, a, p.avail, g.avail), types, g.rest[1..]);
              BlockRun(arms[0].body, g.avail, types, g.rest[1..]);
            }
          }
        }
      }
    }
  }

  lemma ArmKeeps(arms: seq<Arm>)
    requires arms != [] && KeepsCaptures(ArmsUses(arms))
    ensures KeepsCaptures(PatternUses(arms[0].pattern)) && KeepsCaptures(PerformedAll(arms[0].guard))
    ensures KeepsCaptures(BlockUses(arms[0].body)) && KeepsCaptures(ArmsUses(arms[1..]))
  {
    hide KeepsCaptures;
    var (us, gs, bs) := (PatternUses(arms[0].pattern), PerformedAll(arms[0].guard), BlockUses(arms[0].body));
    KeepsBoth(us + (gs + bs), ArmsUses(arms[1..]));
    KeepsBoth(us, gs + bs);
    KeepsBoth(gs, bs);
  }

  lemma RollbackKeeps(steps: seq<PatternStep>, a: Avail, bound: Avail, guarded: Avail)
    requires CapturesKept(a, bound) && CapturesKept(bound, guarded)
    ensures CapturesKept(a, RolledBack(steps, a, bound, guarded))
  {
  }

  // ------------------------------------------------------------------ calls in succession

  /** What a call finds: its captures as the calls before it left them, everything else given anew. */
  ghost function CallAvail(given: set<Root>, left: Avail): Avail {
    iset l: Loc | l.root in given && (l.root.Capture? ==> l in left)
  }

  /** The body called once for each list of choices, captures carried over from call to call. */
  ghost function RunCalls(body: seq<Stmt>, given: set<Root>, left: Avail, types: Types, calls: seq<seq<nat>>): Run {
    if calls == [] then Done(Completes, left, [])
    else
      var first := RunBlock(body, CallAvail(given, left), types, calls[0]);
      if !first.Done? then first else RunCalls(body, given, first.avail, types, calls[1..])
  }

  /** No call of an accepted body loses a capture. */
  lemma CapturesSurvive(body: seq<Stmt>, types: Types, given: set<Root>, spans: Root -> nat, choices: seq<nat>)
    requires CheckBlock(body, InitialState(types, given, spans), types).reports == []
    ensures var r := RunBlock(body, InitialAvail(given), types, choices);
            r.Done? ==> forall l: Loc :: l.root.Capture? && l.root in given ==> l in r.avail
  {
    BlockVisited(body, InitialState(types, given, spans), types);
    BlockRun(body, InitialAvail(given), types, choices);
  }

  /** An accepted body is safe however often it is called. */
  lemma CallsAreSafe(body: seq<Stmt>, types: Types, given: set<Root>, spans: Root -> nat, calls: seq<seq<nat>>)
    requires TypesOk(types) && BlockOk(body, types) && GuardsKeep(body)
    requires CheckBlock(body, InitialState(types, given, spans), types).reports == []
    ensures !RunCalls(body, given, InitialAvail(given), types, calls).Unsafe?
  {
    LaterCallsSafe(body, types, given, spans, InitialAvail(given), calls);
  }

  lemma {:induction false} LaterCallsSafe(body: seq<Stmt>, types: Types, given: set<Root>, spans: Root -> nat,
                                          left: Avail, calls: seq<seq<nat>>)
    requires TypesOk(types) && BlockOk(body, types) && GuardsKeep(body)
    requires CheckBlock(body, InitialState(types, given, spans), types).reports == []
    requires forall l: Loc :: l.root.Capture? && l.root in given ==> l in left
    ensures !RunCalls(body, given, left, types, calls).Unsafe?
    decreases |calls|
  {
    hide RunBlock, CheckBlock, BlockOk, GuardsKeep;
    if calls != [] {
      assert CallAvail(given, left) == InitialAvail(given);
      AcceptedIsSafe(body, types, given, spans, calls[0]);
      CapturesSurvive(body, types, given, spans, calls[0]);
      var first := RunBlock(body, InitialAvail(given), types, calls[0]);
      if first.Done? {
        LaterCallsSafe(body, types, given, spans, first.avail, calls[1..]);
      }
    }
  }
}
