/** Loops converge (src/check/moves.rs:402-477).

    Seen from one location, everything the checker does is very simple: the transition there either
    stays, or is overwritten, or is joined from several such cases.  `Kernel` captures that.  An
    accepted construct acts on each location by its kernel, and from that follows that the second
    pass over a loop never finds anything new.
 */
module MoveKernel {
  import opened MoveCheck
  import opened MoveShape
  import opened MoveTree
  import opened MoveTypes
  import opened Wrappers

  /** `x` becomes the join of `x` itself, if kept, and the base, if any. */
  datatype Kernel = Kernel(keep: bool, base: Option<Transition>)

  function Apply(k: Kernel, x: Transition): Transition {
    if k.base.None? then x
    else if k.keep then JoinTransition(x, k.base.value)
    else k.base.value
  }

  const Same := Kernel(true, None)

  function Const(t: Transition): Kernel {
    Kernel(false, Some(t))
  }

  function MeetBase(a: Option<Transition>, b: Option<Transition>): Option<Transition> {
    if a.None? then b else if b.None? then a else Some(JoinTransition(a.value, b.value))
  }

  ghost predicate KernelOk(k: Kernel) {
    k.keep || k.base.Some?
  }

  function Meet(a: Kernel, b: Kernel): Kernel {
    Kernel(a.keep || b.keep, MeetBase(a.base, b.base))
  }

  /** First `a`, then `b`. */
  function Then(a: Kernel, b: Kernel): Kernel {
    if b.keep then Kernel(a.keep, MeetBase(a.base, b.base)) else b
  }

  lemma KernelLaws(a: Kernel, b: Kernel, x: Transition)
    requires KernelOk(a) && KernelOk(b)
    ensures KernelOk(Meet(a, b)) && KernelOk(Then(a, b))
    ensures Apply(Meet(a, b), x) == JoinTransition(Apply(a, x), Apply(b, x))
    ensures Apply(Then(a, b), x) == Apply(b, Apply(a, x))
  {
  }

  /** One trip around a loop that joins with its entry: a second trip adds nothing. */
  lemma SecondTrip(f: Kernel, x: Transition)
    requires KernelOk(f)
    ensures var h := JoinTransition(x, Apply(f, x)); JoinTransition(x, Apply(f, h)) == h
  {
  }

  // ------------------------------------------------------------------ kernels of constructs

  datatype KFlow = KFlow(normal: Option<Kernel>, breaks: seq<Kernel>, continues: seq<Kernel>)

  function KSet(place: Place, t: Transition, root: Root, p: Path): Kernel {
    if place.root == root && place.path <= p then Const(t) else Same
  }

  function KUses(us: seq<Use>, root: Root, p: Path): Kernel {
    if us == [] then Same
    else Then(if us[0].moves then KSet(us[0].place, Moved(us[0].span), root, p) else Same, KUses(us[1..], root, p))
  }

  function KExpr(e: Expr, own: bool, root: Root, p: Path): Kernel
    decreases e, 1
  {
    if own then Then(KOperands(e.operands, root, p), KUses(e.uses, root, p)) else KOperands(e.operands, root, p)
  }

  function KOperands(o: Operands, root: Root, p: Path): Kernel
    decreases o, 1
  {
    match o
    case All(parts) => KAll(parts, root, p)
    case Logical(left, right) => Then(KExpr(left, true, root, p), Meet(Same, KExpr(right, true, root, p)))
    case PartOf(base, index) => Then(KExpr(base, false, root, p), KAll(index, root, p))
  }

  function KAll(es: seq<Expr>, root: Root, p: Path): Kernel
    decreases es, 0
  {
    if es == [] then Same else Then(KExpr(es[0], true, root, p), KAll(es[1..], root, p))
  }

  function KBind(roots: seq<Root>, span: nat, root: Root, p: Path): Kernel {
    if roots == [] then Same
    else Then(KSet(Place(roots[0], []), Initialized(span), root, p), KBind(roots[1..], span, root, p))
  }

  function KPattern(steps: seq<PatternStep>, root: Root, p: Path): Kernel
    decreases steps
  {
    if steps == [] then Same else Then(KStep(steps[0], root, p), KPattern(steps[1..], root, p))
  }

  function KStep(s: PatternStep, root: Root, p: Path): Kernel
    decreases s
  {
    match s
    case Consume(u) => if u.moves then KSet(u.place, Moved(u.span), root, p) else Same
    case Bind(r, span) => KSet(Place(r, []), Initialized(span), root, p)
    case Either(alternatives) =>
      var all := MeetAll(KEither(alternatives, root, p));
      if all.Some? then all.value else Same
  }

  function KEither(alternatives: seq<Alternative>, root: Root, p: Path): seq<Kernel>
    decreases alternatives
  {
    if alternatives == [] then []
    else [KPattern(alternatives[0].steps, root, p)] + KEither(alternatives[1..], root, p)
  }

  function ThenEach(k: Kernel, ks: seq<Kernel>): (r: seq<Kernel>)
    ensures |r| == |ks| && forall i :: 0 <= i < |ks| ==> r[i] == Then(k, ks[i])
  {
    seq(|ks|, i requires 0 <= i < |ks| => Then(k, ks[i]))
  }

  function After(k: Kernel, f: KFlow): KFlow {
    KFlow(if f.normal.Some? then Some(Then(k, f.normal.value)) else None,
          ThenEach(k, f.breaks), ThenEach(k, f.continues))
  }

  function MeetFrom(k: Kernel, ks: seq<Kernel>): Kernel
    decreases ks
  {
    if ks == [] then k else MeetFrom(Meet(k, ks[0]), ks[1..])
  }

  function MeetAll(ks: seq<Kernel>): Option<Kernel> {
    if ks == [] then None else Some(MeetFrom(ks[0], ks[1..]))
  }

  function KChain(a: Option<Kernel>, b: Option<Kernel>): seq<Kernel> {
    (if a.Some? then [a.value] else []) + (if b.Some? then [b.value] else [])
  }

  /** From a loop's head around its back edge and through the join with the entry. */
  function KBack(body: KFlow): Kernel {
    var back := MeetAll(KChain(body.normal, None) + body.continues);
    MeetFrom(Same, KChain(back, None))
  }

  /** From a loop's entry to its exit; `inward` leads from the head to the body, `outward` from the
      head to the exit. */
  function KLoop(inward: Kernel, outward: Kernel, body: KFlow): Kernel {
    var around := KBack(After(inward, body));
    var breaks := After(inward, body).breaks;
    MeetFrom(Then(around, outward), breaks + ThenEach(around, breaks))
  }

  function KStmt(s: Stmt, root: Root, p: Path): KFlow
    decreases s
  {
    match s
    case Let(bindings, value, span) =>
      KFlow(Some(Then(KExpr(value, true, root, p), KBind(bindings, span, root, p))), [], [])
    case Assign(place, inputs, compound, value, span) =>
      KFlow(Some(Then(Then(KAll(inputs, root, p), KExpr(value, true, root, p)),
                      KSet(place, Initialized(span), root, p))), [], [])
    case Eval(value) => KFlow(Some(KExpr(value, true, root, p)), [], [])
    case Return(result) => KFlow(None, [], [])
    case If(condition, a, b) =>
      var (ka, kb) := (KBlock(a, root, p), KBlock(b, root, p));
      After(KExpr(condition, true, root, p),
            KFlow(MeetAll(KChain(ka.normal, kb.normal)), ka.breaks + kb.breaks, ka.continues + kb.continues))
    case While(condition, body) =>
      var k := KExpr(condition, true, root, p);
      KFlow(Some(KLoop(k, k, KBlock(body, root, p))), [], [])
    case For(binding, iterable, body, span) =>
      KFlow(Some(Then(KExpr(iterable, true, root, p),
                      KLoop(KSet(Place(binding, []), Initialized(span), root, p), Same, KBlock(body, root, p)))),
            [], [])
    case Match(scrutinee, arms) =>
      var (normals, breaks, continues) := KArms(arms, root, p);
      After(KExpr(scrutinee, true, root, p), KFlow(MeetAll(normals), breaks, continues))
    case Block(body) => KBlock(body, root, p)
    case Break => KFlow(None, [Same], [])
    case Continue => KFlow(None, [], [Same])
    case Pass => KFlow(Some(Same), [], [])
  }

  function KBlock(stmts: seq<Stmt>, root: Root, p: Path): KFlow
    decreases stmts
  {
    if stmts == [] then KFlow(Some(Same), [], [])
    else
      var first := KStmt(stmts[0], root, p);
      if first.normal.Some? then
        var rest := After(first.normal.value, KBlock(stmts[1..], root, p));
        KFlow(rest.normal, first.breaks + rest.breaks, first.continues + rest.continues)
      else first
  }

  function KArms(arms: seq<Arm>, root: Root, p: Path): (seq<Kernel>, seq<Kernel>, seq<Kernel>)
    decreases arms
  {
    if arms == [] then ([], [], [])
    else
      var entered := Then(KPattern(arms[0].pattern, root, p), KAll(arms[0].guard, root, p));
      var b := After(entered, KBlock(arms[0].body, root, p));
      var (normals, breaks, continues) := KArms(arms[1..], root, p);
      (KChain(b.normal, None) + normals, b.breaks + breaks, b.continues + continues)
  }

  // ------------------------------------------------------------------ what kernels mean

  /** The state `s` arises from `x` at the location by `k`. */
  ghost predicate Acts(s: State, k: Kernel, x: Transition, root: Root, p: Path) {
    KernelOk(k) && root in s && Lookup(s[root], p) == Apply(k, x)
  }

  ghost predicate ActEach(states: seq<State>, ks: seq<Kernel>, x: Transition, root: Root, p: Path) {
    |states| == |ks| && forall i :: 0 <= i < |ks| ==> Acts(states[i], ks[i], x, root, p)
  }

  ghost predicate ActMaybe(s: Option<State>, k: Option<Kernel>, x: Transition, root: Root, p: Path) {
    if s.Some? then k.Some? && Acts(s.value, k.value, x, root, p) else k.None?
  }

  ghost predicate FlowActs(f: Flow, k: KFlow, x: Transition, root: Root, p: Path) {
    && ActMaybe(f.normal, k.normal, x, root, p)
    && ActEach(f.breaks, k.breaks, x, root, p) && ActEach(f.continues, k.continues, x, root, p)
  }

  lemma NothingActs(x: Transition, root: Root, p: Path)
    ensures ActEach([], [], x, root, p)
  {
  }

  /** What leaves one arm, put before what leaves the others. */
  lemma EachJoined(f: Flow, k: KFlow, normals: seq<State>, breaks: seq<State>, continues: seq<State>,
                   ks: seq<Kernel>, kb: seq<Kernel>, kc: seq<Kernel>, x: Transition, root: Root, p: Path)
    requires FlowActs(f, k, x, root, p)
    requires ActEach(normals, ks, x, root, p) && ActEach(breaks, kb, x, root, p) && ActEach(continues, kc, x, root, p)
    ensures ActEach(Chain(f.normal, None) + normals, KChain(k.normal, None) + ks, x, root, p)
    ensures ActEach(f.breaks + breaks, k.breaks + kb, x, root, p)
    ensures ActEach(f.continues + continues, k.continues + kc, x, root, p)
  {
  }

  lemma ActsThen(s: State, s2: State, a: Kernel, b: Kernel, x: Transition, root: Root, p: Path)
    requires Acts(s, a, x, root, p) && Acts(s2, b, Lookup(s[root], p), root, p)
    ensures Acts(s2, Then(a, b), x, root, p)
  {
    KernelLaws(a, b, x);
  }

  lemma FlowActsAfter(s: State, f: Flow, a: Kernel, k: KFlow, x: Transition, root: Root, p: Path)
    requires Acts(s, a, x, root, p) && FlowActs(f, k, Lookup(s[root], p), root, p)
    ensures FlowActs(f, After(a, k), x, root, p)
  {
    if f.normal.Some? {
      ActsThen(s, f.normal.value, a, k.normal.value, x, root, p);
    }
    EachAfter(s, f.breaks, a, k.breaks, x, root, p);
    EachAfter(s, f.continues, a, k.continues, x, root, p);
  }

  lemma EachAfter(s: State, states: seq<State>, a: Kernel, ks: seq<Kernel>, x: Transition, root: Root, p: Path)
    requires Acts(s, a, x, root, p) && ActEach(states, ks, Lookup(s[root], p), root, p)
    ensures ActEach(states, ThenEach(a, ks), x, root, p)
  {
    forall i | 0 <= i < |ks| ensures Acts(states[i], ThenEach(a, ks)[i], x, root, p) {
      ActsThen(s, states[i], a, ks[i], x, root, p);
    }
  }

  lemma SetActs(s: State, place: Place, t: Transition, root: Root, p: Path)
    requires root in s
    ensures Acts(SetPlace(s, place, t), KSet(place, t, root, p), Lookup(s[root], p), root, p)
  {
    if place.root in s {
      SetMeaning(s[place.root], place.path, t, p);
    }
  }

  lemma JoinTwoActs(a: State, b: State, ka: Kernel, kb: Kernel, x: Transition, root: Root, p: Path)
    requires Acts(a, ka, x, root, p) && Acts(b, kb, x, root, p)
    ensures Acts(JoinTwo(a, b), Meet(ka, kb), x, root, p)
  {
    JoinMeaning(a[root], b[root], p);
    KernelLaws(ka, kb, x);
  }

  lemma {:induction false} JoinFromActs(a: State, states: seq<State>, k: Kernel, ks: seq<Kernel>,
                                        x: Transition, root: Root, p: Path)
    requires Acts(a, k, x, root, p) && ActEach(states, ks, x, root, p)
    ensures Acts(JoinFrom(a, states), MeetFrom(k, ks), x, root, p)
    decreases states
  {
    if states != [] {
      JoinTwoActs(a, states[0], k, ks[0], x, root, p);
      JoinFromActs(JoinTwo(a, states[0]), states[1..], Meet(k, ks[0]), ks[1..], x, root, p);
    }
  }

  lemma JoinAllActs(states: seq<State>, ks: seq<Kernel>, x: Transition, root: Root, p: Path)
    requires ActEach(states, ks, x, root, p)
    ensures ActMaybe(JoinAll(states), MeetAll(ks), x, root, p)
  {
    if states != [] {
      JoinFromActs(states[0], states[1..], ks[0], ks[1..], x, root, p);
    }
  }

  lemma NextHeadActs(entry: State, f: Flow, k: KFlow, x: Transition, root: Root, p: Path)
    requires root in entry && x == Lookup(entry[root], p) && FlowActs(f, k, x, root, p)
    ensures Acts(NextHead(entry, f), KBack(k), x, root, p)
  {
    var states, ks := Chain(f.normal, None) + f.continues, KChain(k.normal, None) + k.continues;
    JoinAllActs(states, ks, x, root, p);
    JoinFromActs(entry, Chain(JoinAll(states), None), Same, KChain(MeetAll(ks), None), x, root, p);
  }

  // ------------------------------------------------------------------ accepted constructs act by their kernels

  lemma {:induction false} VisitUsesActs(us: seq<Use>, st: State, types: Types, root: Root, p: Path)
    requires root in st && VisitUses(us, st, types).reports == []
    ensures Acts(VisitUses(us, st, types).state, KUses(us, root, p), Lookup(st[root], p), root, p)
  {
    if us != [] {
      var first := VisitUse(us[0], st, types);
      SetActs(st, us[0].place, Moved(us[0].span), root, p);
      VisitUsesActs(us[1..], first.state, types, root, p);
      ActsThen(first.state, VisitUses(us, st, types).state,
               if us[0].moves then KSet(us[0].place, Moved(us[0].span), root, p) else Same,
               KUses(us[1..], root, p), Lookup(st[root], p), root, p);
    }
  }

  lemma {:induction false} VisitActs(e: Expr, st: State, types: Types, own: bool, root: Root, p: Path)
    requires root in st && Visit(e, st, types, own).reports == []
    ensures Acts(Visit(e, st, types, own).state, KExpr(e, own, root, p), Lookup(st[root], p), root, p)
    decreases e, 1
  {
    VisitOperandsActs(e.operands, st, types, root, p);
    if own {
      var inner := VisitOperands(e.operands, st, types);
      VisitUsesActs(e.uses, inner.state, types, root, p);
      ActsThen(inner.state, Visit(e, st, types, own).state, KOperands(e.operands, root, p), KUses(e.uses, root, p),
               Lookup(st[root], p), root, p);
    }
  }

  lemma {:induction false} VisitOperandsActs(o: Operands, st: State, types: Types, root: Root, p: Path)
    requires root in st && VisitOperands(o, st, types).reports == []
    ensures Acts(VisitOperands(o, st, types).state, KOperands(o, root, p), Lookup(st[root], p), root, p)
    decreases o, 1
  {
    var x := Lookup(st[root], p);
    match o
    case All(parts) => VisitAllActs(parts, st, types, root, p);
    case Logical(left, right) =>
      VisitActs(left, st, types, true, root, p);
      var first := Visit(left, st, types, true).state;
      VisitActs(right, first, types, true, root, p);
      var second := Visit(right, first, types, true).state;
      JoinTwoActs(first, second, Same, KExpr(right, true, root, p), Lookup(first[root], p), root, p);
      ActsThen(first, JoinTwo(first, second), KExpr(left, true, root, p), Meet(Same, KExpr(right, true, root, p)),
               x, root, p);
    case PartOf(base, index) =>
      VisitActs(base, st, types, false, root, p);
      var first := Visit(base, st, types, false).state;
      VisitAllActs(index, first, types, root, p);
      ActsThen(first, VisitAll(index, first, types).state, KExpr(base, false, root, p), KAll(index, root, p), x, root,
               p);
  }

  lemma {:induction false} VisitAllActs(es: seq<Expr>, st: State, types: Types, root: Root, p: Path)
    requires root in st && VisitAll(es, st, types).reports == []
    ensures Acts(VisitAll(es, st, types).state, KAll(es, root, p), Lookup(st[root], p), root, p)
    decreases es, 0
  {
    if es != [] {
      VisitActs(es[0], st, types, true, root, p);
      var first := Visit(es[0], st, types, true).state;
      VisitAllActs(es[1..], first, types, root, p);
      ActsThen(first, VisitAll(es, st, types).state, KExpr(es[0], true, root, p), KAll(es[1..], root, p),
               Lookup(st[root], p), root, p);
    }
  }

  lemma {:induction false} BindAllActs(roots: seq<Root>, span: nat, st: State, root: Root, p: Path)
    requires root in st
    ensures Acts(BindAll(roots, span, st), KBind(roots, span, root, p), Lookup(st[root], p), root, p)
  {
    if roots != [] {
      var first := SetPlace(st, Place(roots[0], []), Initialized(span));
      SetActs(st, Place(roots[0], []), Initialized(span), root, p);
      BindAllActs(roots[1..], span, first, root, p);
      ActsThen(first, BindAll(roots, span, st), KSet(Place(roots[0], []), Initialized(span), root, p),
               KBind(roots[1..], span, root, p), Lookup(st[root], p), root, p);
    }
  }

  lemma {:induction false} ApplyPatternActs(steps: seq<PatternStep>, st: State, types: Types, root: Root, p: Path)
    requires root in st && ApplyPattern(steps, st, types).reports == []
    ensures Acts(ApplyPattern(steps, st, types).state, KPattern(steps, root, p), Lookup(st[root], p), root, p)
    decreases steps
  {
    hide Acts, ApplyStep, KStep, Lookup;
    if steps == [] {
      SameActs(st, root, p);
    } else {
      var first := ApplyStep(steps[0], st, types).state;
      ApplyStepActs(steps[0], st, types, root, p);
      ActsRoot(first, KStep(steps[0], root, p), Lookup(st[root], p), root, p);
      ApplyPatternActs(steps[1..], first, types, root, p);
      ActsThen(first, ApplyPattern(steps, st, types).state, KStep(steps[0], root, p), KPattern(steps[1..], root, p),
               Lookup(st[root], p), root, p);
    }
  }

  lemma SameActs(st: State, root: Root, p: Path)
    requires root in st
    ensures Acts(st, Same, Lookup(st[root], p), root, p)
  {
  }

  lemma ActsRoot(s: State, k: Kernel, x: Transition, root: Root, p: Path)
    requires Acts(s, k, x, root, p)
    ensures root in s
  {
  }

  lemma {:induction false} ApplyStepActs(s: PatternStep, st: State, types: Types, root: Root, p: Path)
    requires root in st && ApplyStep(s, st, types).reports == []
    ensures Acts(ApplyStep(s, st, types).state, KStep(s, root, p), Lookup(st[root], p), root, p)
    decreases s
  {
    match s
    case Consume(u) => SetActs(st, u.place, Moved(u.span), root, p);
    case Bind(r, span) => SetActs(st, Place(r, []), Initialized(span), root, p);
    case Either(alternatives) =>
      ApplyEitherActs(alternatives, st, types, root, p);
      JoinAllActs(ApplyEither(alternatives, st, types).states, KEither(alternatives, root, p), Lookup(st[root], p),
                  root, p);
  }

  lemma {:induction false} ApplyEitherActs(alternatives: seq<Alternative>, st: State, types: Types, root: Root,
                                           p: Path)
    requires root in st && ApplyEither(alternatives, st, types).reports == []
    ensures ActEach(ApplyEither(alternatives, st, types).states, KEither(alternatives, root, p), Lookup(st[root], p),
                    root, p)
    decreases alternatives
  {
    hide Acts, ApplyPattern, KPattern, Lookup;
    if alternatives != [] {
      ApplyPatternActs(alternatives[0].steps, st, types, root, p);
      ApplyEitherActs(alternatives[1..], st, types, root, p);
    }
  }
}
