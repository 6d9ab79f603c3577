/** Checking a well-formed program keeps its states well-formed: they have an entry for exactly the
    declared roots, and only for parts the root's type has.
 */
module MoveShape {
  import opened MoveCheck
  import opened MoveTree
  import opened MoveTypes
  import opened Wrappers

  ghost predicate StatesOk(states: seq<State>, types: Types) {
    forall s :: s in states ==> StateOk(s, types)
  }

  ghost predicate FlowOk(flow: Flow, types: Types) {
    && (flow.normal.Some? ==> StateOk(flow.normal.value, types))
    && (flow.dead.Some? ==> StateOk(flow.dead.value, types))
    && StatesOk(flow.breaks, types) && StatesOk(flow.continues, types)
  }

  lemma {:induction false} SetConforms(n: Node, ty: Ty, p: Path, t: Transition)
    requires Conforms(n, ty) && ValidPath(ty, p)
    ensures Conforms(Set(n, p, t), ty)
    decreases |p|
  {
    if p != [] {
      SetConforms(Child(n, p[0]), Project(ty, p[0]).value, p[1..], t);
    }
  }

  lemma {:induction false} JoinConforms(a: Node, b: Node, ty: Ty)
    requires Conforms(a, ty) && Conforms(b, ty)
    ensures Conforms(Join(a, b), ty)
    decreases Height(a) + Height(b)
  {
    LeafHeight(a.transition);
    LeafHeight(b.transition);
    forall k | k in a.children.Keys + b.children.Keys
      ensures Project(ty, k).Some? && InBounds(ty, k) && Conforms(Join(Child(a, k), Child(b, k)), Project(ty, k).value)
    {
      JoinConforms(Child(a, k), Child(b, k), Project(ty, k).value);
    }
  }

  lemma SetOk(st: State, types: Types, place: Place, t: Transition)
    requires StateOk(st, types) && PlaceOk(place, types)
    ensures StateOk(SetPlace(st, place, t), types)
  {
    SetConforms(st[place.root], types[place.root], place.path, t);
  }

  lemma JoinTwoOk(a: State, b: State, types: Types)
    requires StateOk(a, types) && StateOk(b, types)
    ensures StateOk(JoinTwo(a, b), types)
  {
    forall r | r in types ensures Conforms(JoinTwo(a, b)[r], types[r]) {
      JoinConforms(a[r], b[r], types[r]);
    }
  }

  lemma {:induction false} JoinFromOk(joined: State, states: seq<State>, types: Types)
    requires StateOk(joined, types) && StatesOk(states, types)
    ensures StateOk(JoinFrom(joined, states), types)
    decreases states
  {
    if states != [] {
      JoinTwoOk(joined, states[0], types);
      JoinFromOk(JoinTwo(joined, states[0]), states[1..], types);
    }
  }

  lemma JoinAllOk(states: seq<State>, types: Types)
    requires StatesOk(states, types)
    ensures JoinAll(states).Some? ==> StateOk(JoinAll(states).value, types)
  {
    if states != [] {
      JoinFromOk(states[0], states[1..], types);
    }
  }

  lemma VisitUseOk(u: Use, st: State, types: Types)
    requires StateOk(st, types) && PlaceOk(u.place, types)
    ensures StateOk(VisitUse(u, st, types).state, types)
  {
    SetOk(st, types, u.place, Moved(u.span));
  }

  lemma {:induction false} VisitUsesOk(us: seq<Use>, st: State, types: Types)
    requires StateOk(st, types) && UsesOk(us, types)
    ensures StateOk(VisitUses(us, st, types).state, types)
  {
    if us != [] {
      VisitUseOk(us[0], st, types);
      VisitUsesOk(us[1..], VisitUse(us[0], st, types).state, types);
    }
  }

  lemma {:induction false} VisitOk(e: Expr, st: State, types: Types, own: bool)
    requires StateOk(st, types) && ExprOk(e, types)
    ensures StateOk(Visit(e, st, types, own).state, types)
    decreases e, 1
  {
    VisitOperandsOk(e.operands, st, types);
    VisitUsesOk(e.uses, VisitOperands(e.operands, st, types).state, types);
  }

  lemma {:induction false} VisitOperandsOk(o: Operands, st: State, types: Types)
    requires StateOk(st, types) && OperandsOk(o, types)
    ensures StateOk(VisitOperands(o, st, types).state, types)
    decreases o, 1
  {
    match o
    case All(parts) => VisitAllOk(parts, st, types);
    case Logical(left, right) =>
      VisitOk(left, st, types, true);
      var first := Visit(left, st, types, true).state;
      VisitOk(right, first, types, true);
      JoinTwoOk(first, Visit(right, first, types, true).state, types);
    case PartOf(base, index) =>
      VisitOk(base, st, types, false);
      VisitAllOk(index, Visit(base, st, types, false).state, types);
  }

  lemma {:induction false} VisitAllOk(es: seq<Expr>, st: State, types: Types)
    requires StateOk(st, types) && ExprsOk(es, types)
    ensures StateOk(VisitAll(es, st, types).state, types)
    decreases es, 0
  {
    if es != [] {
      VisitOk(es[0], st, types, true);
      VisitAllOk(es[1..], Visit(es[0], st, types, true).state, types);
    }
  }

  lemma {:induction false} BindAllOk(roots: seq<Root>, span: nat, st: State, types: Types)
    requires StateOk(st, types) && forall r :: r in roots ==> r in types
    ensures StateOk(BindAll(roots, span, st), types)
  {
    if roots != [] {
      SetOk(st, types, Place(roots[0], []), Initialized(span));
      BindAllOk(roots[1..], span, SetPlace(st, Place(roots[0], []), Initialized(span)), types);
    }
  }

  lemma {:induction false} ApplyPatternOk(steps: seq<PatternStep>, st: State, types: Types)
    requires StateOk(st, types) && PatternOk(steps, types)
    ensures StateOk(ApplyPattern(steps, st, types).state, types)
    decreases steps
  {
    if steps != [] {
      ApplyStepOk(steps[0], st, types);
      ApplyPatternOk(steps[1..], ApplyStep(steps[0], st, types).state, types);
    }
  }

  lemma {:induction false} ApplyStepOk(s: PatternStep, st: State, types: Types)
    requires StateOk(st, types) && StepOk(s, types)
    ensures StateOk(ApplyStep(s, st, types).state, types)
    decreases s
  {
    match s
    case Consume(u) => VisitUseOk(u, st, types);
    case Bind(root, span) => SetOk(st, types, Place(root, []), Initialized(span));
    case Either(alternatives) =>
      ApplyEitherOk(alternatives, st, types);
      JoinAllOk(ApplyEither(alternatives, st, types).states, types);
  }

  lemma {:induction false} ApplyEitherOk(alternatives: seq<Alternative>, st: State, types: Types)
    requires StateOk(st, types) && EitherOk(alternatives, types)
    ensures StatesOk(ApplyEither(alternatives, st, types).states, types)
    decreases alternatives
  {
    if alternatives != [] {
      ApplyPatternOk(alternatives[0].steps, st, types);
      ApplyEitherOk(alternatives[1..], st, types);
    }
  }

  lemma BranchesOk(a: Flow, b: Flow, types: Types)
    requires FlowOk(a, types) && FlowOk(b, types)
    ensures FlowOk(Flow(JoinAll(Chain(a.normal, b.normal)), JoinAll(Chain(a.dead, b.dead)),
                        a.breaks + b.breaks, a.continues + b.continues), types)
  {
    JoinAllOk(Chain(a.normal, b.normal), types);
    JoinAllOk(Chain(a.dead, b.dead), types);
  }

  lemma {:induction false} CheckStmtOk(s: Stmt, st: State, types: Types)
    requires StateOk(st, types) && StmtOk(s, types)
    ensures FlowOk(CheckStmt(s, st, types).flow, types)
    decreases s, 0, 0
  {
    match s
    case Let(bindings, value, span) =>
      VisitOk(value, st, types, true);
      BindAllOk(bindings, span, Visit(value, st, types, true).state, types);
    case Assign(place, inputs, compound, value, span) =>
      VisitAllOk(inputs, st, types);
      var i := VisitAll(inputs, st, types).state;
      VisitOk(value, i, types, true);
      SetOk(Visit(value, i, types, true).state, types, place, Initialized(span));
    case Eval(value) => VisitOk(value, st, types, true);
    case Return(result) => VisitAllOk(result, st, types);
    case If(condition, a, b) =>
      VisitOk(condition, st, types, true);
      var v := Visit(condition, st, types, true).state;
      CheckBlockOk(a, v, types);
      CheckBlockOk(b, v, types);
      BranchesOk(CheckBlock(a, v, types).flow, CheckBlock(b, v, types).flow, types);
    case While(condition, body) =>
      WhilePassesOk(condition, body, st, st, [], Bound(types) + 1, types);
    case For(binding, iterable, body, span) =>
      VisitOk(iterable, st, types, true);
      var v := Visit(iterable, st, types, true).state;
      ForPassesOk(binding, span, body, v, v, [], Bound(types) + 1, types);
    case Match(scrutinee, arms) =>
      VisitOk(scrutinee, st, types, true);
      var v := Visit(scrutinee, st, types, true).state;
      CheckArmsOk(arms, v, types);
      JoinAllOk(CheckArms(arms, v, types).normals, types);
      JoinAllOk(CheckArms(arms, v, types).deads, types);
    case Block(body) => CheckBlockOk(body, st, types);
    case _ =>
  }

  lemma {:induction false} CheckBlockOk(stmts: seq<Stmt>, st: State, types: Types)
    requires StateOk(st, types) && BlockOk(stmts, types)
    ensures FlowOk(CheckBlock(stmts, st, types).flow, types)
    decreases stmts, 0, 0
  {
    if stmts != [] {
      CheckStmtOk(stmts[0], st, types);
      var first := CheckStmt(stmts[0], st, types);
      if first.flow.normal.Some? {
        CheckBlockOk(stmts[1..], first.flow.normal.value, types);
      }
    }
  }

  lemma NextHeadOk(entry: State, body: Flow, types: Types)
    requires StateOk(entry, types) && FlowOk(body, types)
    ensures StateOk(NextHead(entry, body), types)
  {
    JoinAllOk(Chain(body.normal, None) + body.continues, types);
    JoinFromOk(entry, Chain(JoinAll(Chain(body.normal, None) + body.continues), None), types);
  }

  lemma {:induction false} WhilePassesOk(condition: Expr, body: seq<Stmt>, entry: State, head: State,
                                         breaks: seq<State>, n: nat, types: Types)
    requires StateOk(entry, types) && StateOk(head, types) && StatesOk(breaks, types)
    requires ExprOk(condition, types) && BlockOk(body, types)
    ensures StateOk(WhilePasses(condition, body, entry, head, breaks, n, types).exit, types)
    decreases body, 1, n
  {
    VisitOk(condition, head, types, true);
    var v := Visit(condition, head, types, true).state;
    if n == 0 {
      JoinFromOk(v, breaks, types);
    } else {
      CheckBlockOk(body, v, types);
      var b := CheckBlock(body, v, types);
      NextHeadOk(entry, b.flow, types);
      JoinFromOk(v, breaks + b.flow.breaks, types);
      if NextHead(entry, b.flow) != head {
        WhilePassesOk(condition, body, entry, NextHead(entry, b.flow), breaks + b.flow.breaks, n - 1, types);
      }
    }
  }

  lemma {:induction false} ForPassesOk(binding: Root, span: nat, body: seq<Stmt>, entry: State, head: State,
                                       breaks: seq<State>, n: nat, types: Types)
    requires StateOk(entry, types) && StateOk(head, types) && StatesOk(breaks, types)
    requires binding in types && BlockOk(body, types)
    ensures StateOk(ForPasses(binding, span, body, entry, head, breaks, n, types).exit, types)
    decreases body, 1, n
  {
    if n == 0 {
      JoinFromOk(head, breaks, types);
    } else {
      SetOk(head, types, Place(binding, []), Initialized(span));
      var v := SetPlace(head, Place(binding, []), Initialized(span));
      CheckBlockOk(body, v, types);
      var b := CheckBlock(body, v, types);
      NextHeadOk(entry, b.flow, types);
      JoinFromOk(head, breaks + b.flow.breaks, types);
      if NextHead(entry, b.flow) != head {
        ForPassesOk(binding, span, body, entry, NextHead(entry, b.flow), breaks + b.flow.breaks, n - 1, types);
      }
    }
  }

  lemma {:induction false} CheckArmsOk(arms: seq<Arm>, st: State, types: Types)
    requires StateOk(st, types) && ArmsOk(arms, types)
    ensures var a := CheckArms(arms, st, types);
            && StatesOk(a.normals, types) && StatesOk(a.deads, types)
            && StatesOk(a.breaks, types) && StatesOk(a.continues, types)
    decreases arms, 0, 0
  {
    if arms != [] {
      ApplyPatternOk(arms[0].pattern, st, types);
      var p := ApplyPattern(arms[0].pattern, st, types).state;
      VisitAllOk(arms[0].guard, p, types);
      CheckBlockOk(arms[0].body, VisitAll(arms[0].guard, p, types).state, types);
      CheckArmsOk(arms[1..], st, types);
    }
  }
}
