/** What the move checker computes (src/check/moves.rs:265-931), as functions: for every construct
    the states that leave it along each edge, and the errors it reports.
 */
module MoveCheck {
  import opened MoveTree
  import opened MoveTypes
  import opened Wrappers

  // ------------------------------------------------------------------ programs

  datatype Root = Local(id: nat) | Capture(index: nat)

  datatype Place = Place(root: Root, path: Path)

  /** An ownership operation of an expression on a place: a move, or any use that leaves it. */
  datatype Use = Use(moves: bool, place: Place, span: nat)

  /** An expression: its operands in evaluation order, then its own operations.  Field and index
      accesses visit their base without performing the base's own operations. */
  datatype Expr = Expr(operands: Operands, uses: seq<Use>)

  datatype Operands =
    | All(parts: seq<Expr>)
    | Logical(left: Expr, right: Expr)
    | PartOf(base: Expr, index: seq<Expr>)

  datatype Stmt =
    | Let(bindings: seq<Root>, value: Expr, span: nat)
    | Assign(place: Place, inputs: seq<Expr>, compound: bool, value: Expr, span: nat)
    | Eval(value: Expr)
    | Return(result: seq<Expr>)
    | If(condition: Expr, thenBody: seq<Stmt>, elseBody: seq<Stmt>)
    | While(condition: Expr, body: seq<Stmt>)
    | For(binding: Root, iterable: Expr, body: seq<Stmt>, span: nat)
    | Match(scrutinee: Expr, arms: seq<Arm>)
    | Block(body: seq<Stmt>)
    | Break
    | Continue
    | Pass

  /** A match arm: what its pattern consumes and binds, in order, its guard (no expression, or one),
      and its body. */
  datatype Arm = Arm(pattern: seq<PatternStep>, guard: seq<Expr>, body: seq<Stmt>)

  datatype PatternStep =
    | Consume(use: Use)
    | Bind(root: Root, span: nat)
    | Either(alternatives: seq<Alternative>)

  datatype Alternative = Alternative(steps: seq<PatternStep>)

  // ------------------------------------------------------------------ states

  type State = map<Root, Node>
  type Types = map<Root, Ty>

  /** `MoveState::set`. */
  function SetPlace(st: State, place: Place, t: Transition): State {
    if place.root in st then st[place.root := Set(st[place.root], place.path, t)] else st
  }

  function JoinTwo(a: State, b: State): State {
    map r | r in a.Keys + b.Keys ::
      if r in a && r in b then Join(a[r], b[r]) else if r in a then a[r] else b[r]
  }

  /** `MoveState::join`: nothing joins to nothing, one state to itself. */
  function JoinAll(states: seq<State>): Option<State> {
    if states == [] then None else Some(JoinFrom(states[0], states[1..]))
  }

  function JoinFrom(joined: State, states: seq<State>): State
    decreases states
  {
    if states == [] then joined else JoinFrom(JoinTwo(joined, states[0]), states[1..])
  }

  function Chain(a: Option<State>, b: Option<State>): seq<State> {
    (if a.Some? then [a.value] else []) + (if b.Some? then [b.value] else [])
  }

  // ------------------------------------------------------------------ expressions

  datatype Reason = NotAvailable | CaptureMoved | IndexMoved

  datatype Report = Report(span: nat, reason: Reason)

  datatype Visited = Visited(state: State, reports: seq<Report>)

  /** `require_available`. */
  predicate Usable(st: State, types: Types, place: Place) {
    place.root in st && place.root in types ==> PlaceAvailable(st[place.root], types[place.root], place.path)
  }

  /** `invalid_move_projection`: moves out of indexed places, except constant array elements. */
  predicate IndexedMove(ty: Ty, p: Path)
    decreases |p|
  {
    p != [] &&
    (p[0] == DynamicIndex || (p[0].ConstantIndex? && !ty.Array?)
     || IndexedMove(if Project(ty, p[0]).Some? then Project(ty, p[0]).value else ty, p[1..]))
  }

  /** `move_place` and `require_available`. */
  function VisitUse(u: Use, st: State, types: Types): Visited {
    if u.moves && u.place.root.Capture? then Visited(st, [Report(u.span, CaptureMoved)])
    else if u.moves && u.place.root in types && IndexedMove(types[u.place.root], u.place.path) then
      Visited(st, [Report(u.span, IndexMoved)])
    else if !Usable(st, types, u.place) then Visited(st, [Report(u.span, NotAvailable)])
    else if u.moves then Visited(SetPlace(st, u.place, Moved(u.span)), [])
    else Visited(st, [])
  }

  function VisitUses(us: seq<Use>, st: State, types: Types): Visited {
    if us == [] then Visited(st, [])
    else
      var first := VisitUse(us[0], st, types);
      var rest := VisitUses(us[1..], first.state, types);
      Visited(rest.state, first.reports + rest.reports)
  }

  /** `visit_expression`; `own` says whether the expression's own operations apply. */
  function Visit(e: Expr, st: State, types: Types, own: bool): Visited
    decreases e, 1
  {
    var inner := VisitOperands(e.operands, st, types);
    if own then
      var outer := VisitUses(e.uses, inner.state, types);
      Visited(outer.state, inner.reports + outer.reports)
    else inner
  }

  function VisitOperands(o: Operands, st: State, types: Types): Visited
    decreases o, 1
  {
    match o
    case All(parts) => VisitAll(parts, st, types)
    case Logical(left, right) =>
      var first := Visit(left, st, types, true);
      var second := Visit(right, first.state, types, true);
      Visited(JoinTwo(first.state, second.state), first.reports + second.reports)
    case PartOf(base, index) =>
      var first := Visit(base, st, types, false);
      var second := VisitAll(index, first.state, types);
      Visited(second.state, first.reports + second.reports)
  }

  function VisitAll(es: seq<Expr>, st: State, types: Types): Visited
    decreases es, 0
  {
    if es == [] then Visited(st, [])
    else
      var first := Visit(es[0], st, types, true);
      var rest := VisitAll(es[1..], first.state, types);
      Visited(rest.state, first.reports + rest.reports)
  }

  // ------------------------------------------------------------------ statements

  datatype Flow = Flow(normal: Option<State>, dead: Option<State>, breaks: seq<State>, continues: seq<State>)

  datatype Checked = Checked(flow: Flow, reports: seq<Report>)

  function Normal(st: State): Flow {
    Flow(Some(st), None, [], [])
  }

  function BindAll(roots: seq<Root>, span: nat, st: State): State {
    if roots == [] then st else BindAll(roots[1..], span, SetPlace(st, Place(roots[0], []), Initialized(span)))
  }

  /** `apply_pattern`: each alternative starts from the same state, and their states are joined. */
  function ApplyPattern(steps: seq<PatternStep>, st: State, types: Types): Visited
    decreases steps
  {
    if steps == [] then Visited(st, [])
    else
      var first := ApplyStep(steps[0], st, types);
      var rest := ApplyPattern(steps[1..], first.state, types);
      Visited(rest.state, first.reports + rest.reports)
  }

  function ApplyStep(s: PatternStep, st: State, types: Types): Visited
    decreases s
  {
    match s
    case Consume(u) => VisitUse(u, st, types)
    case Bind(root, span) => Visited(SetPlace(st, Place(root, []), Initialized(span)), [])
    case Either(alternatives) =>
      var e := ApplyEither(alternatives, st, types);
      Visited(if JoinAll(e.states).Some? then JoinAll(e.states).value else st, e.reports)
  }

  datatype Tried = Tried(states: seq<State>, reports: seq<Report>)

  function ApplyEither(alternatives: seq<Alternative>, st: State, types: Types): Tried
    decreases alternatives
  {
    if alternatives == [] then Tried([], [])
    else
      var first := ApplyPattern(alternatives[0].steps, st, types);
      var rest := ApplyEither(alternatives[1..], st, types);
      Tried([first.state] + rest.states, first.reports + rest.reports)
  }

  /** `transition_bound`. */
  function Bound(types: Types): nat {
    if 4 * |types| > 8 then 4 * |types| else 8
  }

  /** The first `n` passes of a loop and how they ended: with the state that leaves it normally. */
  datatype Looped = Looped(exit: State, reports: seq<Report>, converged: bool, passes: nat)

  function CheckStmt(s: Stmt, st: State, types: Types): Checked
    decreases s, 0, 0
  {
    match s
    case Let(bindings, value, span) =>
      var v := Visit(value, st, types, true);
      Checked(Normal(BindAll(bindings, span, v.state)), v.reports)
    case Assign(place, inputs, compound, value, span) =>
      var i := VisitAll(inputs, st, types);
      var v := Visit(value, i.state, types, true);
      var reports := if compound && !Usable(v.state, types, place) then [Report(span, NotAvailable)] else [];
      Checked(Normal(SetPlace(v.state, place, Initialized(span))), i.reports + v.reports + reports)
    case Eval(value) =>
      var v := Visit(value, st, types, true);
      Checked(Normal(v.state), v.reports)
    case Return(result) =>
      var v := VisitAll(result, st, types);
      Checked(Flow(None, Some(v.state), [], []), v.reports)
    case If(condition, thenBody, elseBody) =>
      var v := Visit(condition, st, types, true);
      var a := CheckBlock(thenBody, v.state, types);
      var b := CheckBlock(elseBody, v.state, types);
      Checked(Flow(JoinAll(Chain(a.flow.normal, b.flow.normal)), JoinAll(Chain(a.flow.dead, b.flow.dead)),
                   a.flow.breaks + b.flow.breaks, a.flow.continues + b.flow.continues),
              v.reports + a.reports + b.reports)
    case While(condition, body) =>
      var l := WhilePasses(condition, body, st, st, [], Bound(types) + 1, types);
      Checked(Normal(l.exit), l.reports)
    case For(binding, iterable, body, span) =>
      var v := Visit(iterable, st, types, true);
      var l := ForPasses(binding, span, body, v.state, v.state, [], Bound(types) + 1, types);
      Checked(Normal(l.exit), v.reports + l.reports)
    case Match(scrutinee, arms) =>
      var v := Visit(scrutinee, st, types, true);
      var a := CheckArms(arms, v.state, types);
      Checked(Flow(JoinAll(a.normals), JoinAll(a.deads), a.breaks, a.continues), v.reports + a.reports)
    case Block(body) => CheckBlock(body, st, types)
    case Break => Checked(Flow(None, Some(st), [st], []), [])
    case Continue => Checked(Flow(None, Some(st), [], [st]), [])
    case Pass => Checked(Normal(st), [])
  }

  /** `check_block`: statements after one that never completes are checked, but their states are
      dropped. */
  function CheckBlock(stmts: seq<Stmt>, st: State, types: Types): Checked
    decreases stmts, 0, 0
  {
    if stmts == [] then Checked(Normal(st), [])
    else
      var first := CheckStmt(stmts[0], st, types);
      if first.flow.normal.Some? then
        var rest := CheckBlock(stmts[1..], first.flow.normal.value, types);
        Checked(Flow(rest.flow.normal, None, first.flow.breaks + rest.flow.breaks,
                     first.flow.continues + rest.flow.continues),
                first.reports + rest.reports)
      else
        var dead := if first.flow.dead.Some? then first.flow.dead.value else st;
        Checked(Flow(None, None, first.flow.breaks, first.flow.continues),
                first.reports + DeadReports(stmts[1..], dead, types))
  }

  function DeadReports(stmts: seq<Stmt>, st: State, types: Types): seq<Report>
    decreases stmts, 0, 0
  {
    if stmts == [] then []
    else
      var first := CheckStmt(stmts[0], st, types);
      first.reports + DeadReports(stmts[1..], if first.flow.normal.Some? then first.flow.normal.value else st, types)
  }

  /** The states around a loop's back edge joined with its entry. */
  function NextHead(entry: State, body: Flow): State {
    var back := JoinAll(Chain(body.normal, None) + body.continues);
    JoinFrom(entry, Chain(back, None))
  }

  /** `check_while` with `n` passes left. */
  function WhilePasses(condition: Expr, body: seq<Stmt>, entry: State, head: State, breaks: seq<State>,
                       n: nat, types: Types): Looped
    decreases body, 1, n
  {
    var v := Visit(condition, head, types, true);
    if n == 0 then Looped(JoinFrom(v.state, breaks), v.reports, false, 0)
    else
      var b := CheckBlock(body, v.state, types);
      var next := NextHead(entry, b.flow);
      var more := breaks + b.flow.breaks;
      if next == head then Looped(JoinFrom(v.state, more), v.reports + b.reports, true, 1)
      else
        var rest := WhilePasses(condition, body, entry, next, more, n - 1, types);
        Looped(rest.exit, v.reports + b.reports + rest.reports, rest.converged, rest.passes + 1)
  }

  /** `check_for` with `n` passes left. */
  function ForPasses(binding: Root, span: nat, body: seq<Stmt>, entry: State, head: State, breaks: seq<State>,
                     n: nat, types: Types): Looped
    decreases body, 1, n
  {
    if n == 0 then Looped(JoinFrom(head, breaks), [], false, 0)
    else
      var b := CheckBlock(body, SetPlace(head, Place(binding, []), Initialized(span)), types);
      var next := NextHead(entry, b.flow);
      var more := breaks + b.flow.breaks;
      if next == head then Looped(JoinFrom(head, more), b.reports, true, 1)
      else
        var rest := ForPasses(binding, span, body, entry, next, more, n - 1, types);
        Looped(rest.exit, b.reports + rest.reports, rest.converged, rest.passes + 1)
  }

  datatype ArmsChecked = ArmsChecked(
    normals: seq<State>, deads: seq<State>, breaks: seq<State>, continues: seq<State>, reports: seq<Report>)

  function CheckArms(arms: seq<Arm>, st: State, types: Types): ArmsChecked
    decreases arms, 0, 0
  {
    if arms == [] then ArmsChecked([], [], [], [], [])
    else
      var p := ApplyPattern(arms[0].pattern, st, types);
      var g := VisitAll(arms[0].guard, p.state, types);
      var b := CheckBlock(arms[0].body, g.state, types);
      var rest := CheckArms(arms[1..], st, types);
      ArmsChecked(Chain(b.flow.normal, None) + rest.normals, Chain(b.flow.dead, None) + rest.deads,
                  b.flow.breaks + rest.breaks, b.flow.continues + rest.continues,
                  p.reports + g.reports + b.reports + rest.reports)
  }

  // ------------------------------------------------------------------ well-formed programs

  /** Places name declared roots and parts their types have. */
  ghost predicate PlaceOk(place: Place, types: Types) {
    place.root in types && ValidPath(types[place.root], place.path)
  }

  ghost predicate UsesOk(us: seq<Use>, types: Types) {
    forall u :: u in us ==> PlaceOk(u.place, types)
  }

  ghost predicate ExprOk(e: Expr, types: Types)
    decreases e, 1
  {
    OperandsOk(e.operands, types) && UsesOk(e.uses, types)
  }

  ghost predicate OperandsOk(o: Operands, types: Types)
    decreases o, 1
  {
    match o
    case All(parts) => ExprsOk(parts, types)
    case Logical(left, right) => ExprOk(left, types) && ExprOk(right, types)
    case PartOf(base, index) => ExprOk(base, types) && ExprsOk(index, types)
  }

  ghost predicate ExprsOk(es: seq<Expr>, types: Types)
    decreases es, 0
  {
    es == [] || (ExprOk(es[0], types) && ExprsOk(es[1..], types))
  }

  ghost predicate StmtOk(s: Stmt, types: Types)
    decreases s
  {
    match s
    case Let(bindings, value, _) => (forall r :: r in bindings ==> r in types) && ExprOk(value, types)
    case Assign(place, inputs, _, value, _) => PlaceOk(place, types) && ExprsOk(inputs, types) && ExprOk(value, types)
    case Eval(value) => ExprOk(value, types)
    case Return(result) => ExprsOk(result, types)
    case If(condition, a, b) => ExprOk(condition, types) && BlockOk(a, types) && BlockOk(b, types)
    case While(condition, body) => ExprOk(condition, types) && BlockOk(body, types)
    case For(binding, iterable, body, _) => binding in types && ExprOk(iterable, types) && BlockOk(body, types)
    case Match(scrutinee, arms) => ExprOk(scrutinee, types) && ArmsOk(arms, types)
    case Block(body) => BlockOk(body, types)
    case _ => true
  }

  ghost predicate BlockOk(stmts: seq<Stmt>, types: Types)
    decreases stmts
  {
    stmts == [] || (StmtOk(stmts[0], types) && BlockOk(stmts[1..], types))
  }

  ghost predicate ArmsOk(arms: seq<Arm>, types: Types)
    decreases arms
  {
    arms == [] ||
    (PatternOk(arms[0].pattern, types) && ExprsOk(arms[0].guard, types) && BlockOk(arms[0].body, types)
     && ArmsOk(arms[1..], types))
  }

  ghost predicate PatternOk(steps: seq<PatternStep>, types: Types)
    decreases steps
  {
    steps == [] || (StepOk(steps[0], types) && PatternOk(steps[1..], types))
  }

  ghost predicate StepOk(s: PatternStep, types: Types)
    decreases s
  {
    match s
    case Consume(u) => PlaceOk(u.place, types)
    case Bind(root, _) => root in types
    case Either(alternatives) => EitherOk(alternatives, types)
  }

  ghost predicate EitherOk(alternatives: seq<Alternative>, types: Types)
    decreases alternatives
  {
    alternatives == [] || (PatternOk(alternatives[0].steps, types) && EitherOk(alternatives[1..], types))
  }

  ghost predicate TypesOk(types: Types) {
    forall r :: r in types ==> WellSized(types[r])
  }

  /** A state of a function whose roots have the given types. */
  ghost predicate StateOk(st: State, types: Types) {
    && st.Keys == types.Keys
    && forall r :: r in types ==> Conforms(st[r], types[r])
  }
}
