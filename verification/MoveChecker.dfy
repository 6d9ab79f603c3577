/** The move checker as the program it is (src/check/moves.rs): methods that walk a function body,
    replace the state as they go and collect diagnostics, each reported once.  What they compute is
    stated by the functions of MoveCheck.
 */
module MoveChecker {
  import opened MoveCaptures
  import opened MoveCheck
  import opened MoveExact
  import opened MoveRun
  import opened MoveTree
  import opened MoveTypes
  import opened Wrappers

  /** The diagnostics after reporting `reports` in turn, each at most once. */
  function Recorded(diagnostics: seq<Report>, reports: seq<Report>): seq<Report>
    decreases reports
  {
    if reports == [] then diagnostics
    else Recorded(if reports[0] in diagnostics then diagnostics else diagnostics + [reports[0]], reports[1..])
  }

  lemma {:induction false} RecordedPlus(diagnostics: seq<Report>, a: seq<Report>, b: seq<Report>)
    ensures Recorded(diagnostics, a + b) == Recorded(Recorded(diagnostics, a), b)
    decreases a
  {
    if a == [] {
      assert a + b == b;
    } else {
      assert (a + b)[1..] == a[1..] + b;
      RecordedPlus(if a[0] in diagnostics then diagnostics else diagnostics + [a[0]], a[1..], b);
    }
  }

  /** Reporting once per span and reason hides no error: what is reported is what was found. */
  lemma {:induction false} RecordedMembers(diagnostics: seq<Report>, reports: seq<Report>, r: Report)
    ensures r in Recorded(diagnostics, reports) <==> r in diagnostics || r in reports
    decreases reports
  {
    if reports != [] {
      var d := if reports[0] in diagnostics then diagnostics else diagnostics + [reports[0]];
      RecordedMembers(d, reports[1..], r);
      assert reports == [reports[0]] + reports[1..];
    }
  }

  lemma RecordedEmpty(reports: seq<Report>)
    ensures Recorded([], reports) == [] <==> reports == []
  {
    if reports != [] {
      RecordedMembers([], reports, reports[0]);
    }
  }

  /** No diagnostic is given twice. */
  predicate Once(diagnostics: seq<Report>) {
    forall i, j :: 0 <= i < j < |diagnostics| ==> diagnostics[i] != diagnostics[j]
  }

  lemma {:induction false} RecordedOnce(diagnostics: seq<Report>, reports: seq<Report>)
    requires Once(diagnostics)
    ensures Once(Recorded(diagnostics, reports))
    decreases reports
  {
    if reports != [] {
      RecordedOnce(if reports[0] in diagnostics then diagnostics else diagnostics + [reports[0]], reports[1..]);
    }
  }

  // One unfolding each of the functions the loops below compute.

  lemma WhileStep(condition: Expr, body: seq<Stmt>, entry: State, head: State, breaks: seq<State>, n: nat, types: Types)
    requires n > 0
    ensures var v := Visit(condition, head, types, true);
            var b := MoveCheck.CheckBlock(body, v.state, types);
            var next, more := NextHead(entry, b.flow), breaks + b.flow.breaks;
            var l := WhilePasses(condition, body, entry, head, breaks, n, types);
            if next == head then l.exit == JoinFrom(v.state, more) && l.reports == v.reports + b.reports
            else
              var rest := WhilePasses(condition, body, entry, next, more, n - 1, types);
              l.exit == rest.exit && l.reports == v.reports + b.reports + rest.reports
  {
  }

  lemma WhileCutOff(condition: Expr, body: seq<Stmt>, entry: State, head: State, breaks: seq<State>, types: Types)
    ensures var v := Visit(condition, head, types, true);
            var l := WhilePasses(condition, body, entry, head, breaks, 0, types);
            l.exit == JoinFrom(v.state, breaks) && l.reports == v.reports
  {
  }

  lemma ForCutOff(binding: Root, span: nat, body: seq<Stmt>, entry: State, head: State, breaks: seq<State>,
                  types: Types)
    ensures var l := ForPasses(binding, span, body, entry, head, breaks, 0, types);
            l.exit == JoinFrom(head, breaks) && l.reports == []
  {
  }

  lemma ForStep(binding: Root, span: nat, body: seq<Stmt>, entry: State, head: State, breaks: seq<State>, n: nat,
                types: Types)
    requires n > 0
    ensures var b := MoveCheck.CheckBlock(body, SetPlace(head, Place(binding, []), Initialized(span)), types);
            var next, more := NextHead(entry, b.flow), breaks + b.flow.breaks;
            var l := ForPasses(binding, span, body, entry, head, breaks, n, types);
            if next == head then l.exit == JoinFrom(head, more) && l.reports == b.reports
            else
              var rest := ForPasses(binding, span, body, entry, next, more, n - 1, types);
              l.exit == rest.exit && l.reports == b.reports + rest.reports
  {
  }

  lemma ArmsStep(arms: seq<Arm>, i: nat, st: State, types: Types)
    requires i < |arms|
    ensures var p := ApplyPattern(arms[i].pattern, st, types);
            var g := VisitAll(arms[i].guard, p.state, types);
            var b := MoveCheck.CheckBlock(arms[i].body, g.state, types);
            var rest := CheckArms(arms[i + 1..], st, types);
            CheckArms(arms[i..], st, types) ==
              ArmsChecked(Chain(b.flow.normal, None) + rest.normals, Chain(b.flow.dead, None) + rest.deads,
                          b.flow.breaks + rest.breaks, b.flow.continues + rest.continues,
                          p.reports + g.reports + b.reports + rest.reports)
  {
    assert arms[i..][0] == arms[i] && arms[i..][1..] == arms[i + 1..];
  }

  lemma NoArms(arms: seq<Arm>, st: State, types: Types)
    ensures CheckArms(arms[|arms|..], st, types) == ArmsChecked([], [], [], [], [])
  {
    assert arms[|arms|..] == [];
  }

  /** What is left of a block: the flow still to be computed and the errors still to be found. */
  function Remaining(stmts: seq<Stmt>, normal: Option<State>, unreachable: Option<State>, types: Types): Checked {
    if normal.Some? then MoveCheck.CheckBlock(stmts, normal.value, types)
    else if unreachable.Some? then Checked(Flow(None, None, [], []), DeadReports(stmts, unreachable.value, types))
    else Checked(Flow(None, None, [], []), [])
  }

  lemma RemainingStep(stmts: seq<Stmt>, i: nat, normal: Option<State>, unreachable: Option<State>, types: Types)
    requires i < |stmts| && (normal.Some? || unreachable.Some?)
    ensures var current := if normal.Some? then normal.value else unreachable.value;
            var next := CheckStmt(stmts[i], current, types);
            var normal2 := if normal.Some? then next.flow.normal else None;
            var unreachable2 :=
              if normal.Some? then (if next.flow.normal.Some? then unreachable
                                    else if next.flow.dead.Some? then next.flow.dead else Some(current))
              else if next.flow.normal.Some? then next.flow.normal else Some(current);
            var rest := Remaining(stmts[i + 1..], normal2, unreachable2, types);
            Remaining(stmts[i..], normal, unreachable, types) ==
              Checked(Flow(rest.flow.normal, None,
                           (if normal.Some? then next.flow.breaks else []) + rest.flow.breaks,
                           (if normal.Some? then next.flow.continues else []) + rest.flow.continues),
                      next.reports + rest.reports)
  {
    assert stmts[i..][0] == stmts[i] && stmts[i..][1..] == stmts[i + 1..];
    BlockNeverDead(stmts[i + 1..], if normal.Some? then normal.value else unreachable.value, types);
    if normal.Some? && CheckStmt(stmts[i], normal.value, types).flow.normal.Some? {
      BlockNeverDead(stmts[i + 1..], CheckStmt(stmts[i], normal.value, types).flow.normal.value, types);
    }
  }

  /** What the loop has gathered, with what is left, is the whole. */
  ghost predicate Gathered(all: Checked, was: seq<Report>, rest: Checked, breaks: seq<State>,
                           continues: seq<State>, now: seq<Report>) {
    && all.flow == Flow(rest.flow.normal, None, breaks + rest.flow.breaks, continues + rest.flow.continues)
    && Recorded(now, rest.reports) == Recorded(was, all.reports)
  }

  lemma GatheredMore(all: Checked, was: seq<Report>, b: seq<State>, c: seq<State>, reports: seq<Report>,
                     rest: Checked, breaks: seq<State>, continues: seq<State>, now: seq<Report>)
    requires Gathered(all, was, Checked(Flow(rest.flow.normal, None, b + rest.flow.breaks, c + rest.flow.continues),
                                        reports + rest.reports), breaks, continues, now)
    ensures Gathered(all, was, rest, breaks + b, continues + c, Recorded(now, reports))
  {
    RecordedPlus(now, reports, rest.reports);
    assert breaks + (b + rest.flow.breaks) == (breaks + b) + rest.flow.breaks;
    assert continues + (c + rest.flow.continues) == (continues + c) + rest.flow.continues;
  }

  lemma GatheredAll(all: Checked, was: seq<Report>)
    requires all.flow.dead == None
    ensures Gathered(all, was, all, [], [], was)
  {
  }

  lemma GatheredNone(all: Checked, was: seq<Report>, rest: Checked, breaks: seq<State>, continues: seq<State>,
                     now: seq<Report>)
    requires Gathered(all, was, rest, breaks, continues, now)
    requires rest == Checked(Flow(rest.flow.normal, None, [], []), [])
    ensures all.flow == Flow(rest.flow.normal, None, breaks, continues) && Recorded(was, all.reports) == now
  {
  }

  lemma RemainingAll(stmts: seq<Stmt>, st: State, types: Types)
    ensures Remaining(stmts[0..], Some(st), None, types) == MoveCheck.CheckBlock(stmts, st, types)
    ensures MoveCheck.CheckBlock(stmts, st, types).flow.dead == None
  {
    assert stmts[0..] == stmts;
    BlockNeverDead(stmts, st, types);
  }

  lemma RemainingNone(stmts: seq<Stmt>, normal: Option<State>, unreachable: Option<State>, types: Types)
    ensures Remaining(stmts[|stmts|..], normal, unreachable, types) == Checked(Flow(normal, None, [], []), [])
  {
    assert stmts[|stmts|..] == [];
  }

  lemma RecordedNone(diagnostics: seq<Report>)
    ensures Recorded(diagnostics, []) == diagnostics
  {
  }

  lemma BlockNeverDead(stmts: seq<Stmt>, st: State, types: Types)
    ensures MoveCheck.CheckBlock(stmts, st, types).flow.dead == None
  {
  }

  class MoveChecker {
    const types: Types
    var diagnostics: seq<Report>
    var reported: set<Report>

    ghost predicate Valid()
      reads this
    {
      forall r :: r in reported <==> r in diagnostics
    }

    constructor (types: Types)
      ensures Valid() && diagnostics == [] && this.types == types
    {
      this.types := types;
      diagnostics, reported := [], {};
    }

    /** `report`. */
    method Report(r: Report)
      requires Valid()
      modifies this
      ensures Valid() && diagnostics == Recorded(old(diagnostics), [r])
    {
      assert [r][1..] == [];
      if r !in reported {
        reported := reported + {r};
        diagnostics := diagnostics + [r];
      }
    }

    /** `require_available`. */
    method RequireAvailable(place: Place, span: nat, st: State) returns (ok: bool)
      requires Valid()
      modifies this
      ensures Valid() && ok == Usable(st, types, place)
      ensures diagnostics == Recorded(old(diagnostics), if ok then [] else [MoveCheck.Report(span, NotAvailable)])
    {
      ok := Usable(st, types, place);
      if !ok {
        Report(MoveCheck.Report(span, NotAvailable));
      }
    }

    /** `move_place`. */
    method MovePlace(place: Place, span: nat, st: State) returns (next: State)
      requires Valid()
      modifies this
      ensures Valid()
      ensures var v := VisitUse(Use(true, place, span), st, types);
              next == v.state && diagnostics == Recorded(old(diagnostics), v.reports)
    {
      next := st;
      if place.root.Capture? {
        Report(MoveCheck.Report(span, CaptureMoved));
        return;
      }
      if place.root in types && IndexedMove(types[place.root], place.path) {
        Report(MoveCheck.Report(span, IndexMoved));
        return;
      }
      var ok := RequireAvailable(place, span, st);
      if !ok {
        return;
      }
      next := SetPlace(next, place, Moved(span));
    }

    /** The operations an expression performs on its own account. */
    method ApplyUses(uses: seq<Use>, st: State) returns (next: State)
      requires Valid()
      modifies this
      ensures Valid()
      ensures var v := VisitUses(uses, st, types);
              next == v.state && diagnostics == Recorded(old(diagnostics), v.reports)
    {
      next := st;
      var i := 0;
      while i < |uses|
        invariant 0 <= i <= |uses| && Valid()
        invariant VisitUses(uses[i..], next, types).state == VisitUses(uses, st, types).state
        invariant Recorded(diagnostics, VisitUses(uses[i..], next, types).reports)
               == Recorded(old(diagnostics), VisitUses(uses, st, types).reports)
      {
        ghost var before, was := diagnostics, next;
        var u := uses[i];
        assert uses[i..][0] == u && uses[i..][1..] == uses[i + 1..];
        if u.moves {
          next := MovePlace(u.place, u.span, next);
        } else {
          var _ := RequireAvailable(u.place, u.span, next);
        }
        assert diagnostics == Recorded(before, VisitUse(u, was, types).reports);
        RecordedPlus(before, VisitUse(u, was, types).reports, VisitUses(uses[i + 1..], next, types).reports);
        i := i + 1;
      }
    }

    /** `visit_expression`. */
    method VisitExpression(e: Expr, st: State, applySelf: bool) returns (next: State)
      requires Valid()
      modifies this
      ensures Valid()
      ensures var v := Visit(e, st, types, applySelf);
              next == v.state && diagnostics == Recorded(old(diagnostics), v.reports)
      decreases e, 1
    {
      ghost var d0 := diagnostics;
      match e.operands {
        case All(parts) =>
          next := VisitSequence(parts, st);
        case Logical(left, right) =>
          next := VisitExpression(left, st, true);
          ghost var first := Visit(left, st, types, true);
          var rightState := VisitExpression(right, next, true);
          RecordedPlus(d0, first.reports, Visit(right, next, types, true).reports);
          next := JoinTwo(next, rightState);
        case PartOf(base, index) =>
          next := VisitExpression(base, st, false);
          ghost var mid := next;
          next := VisitSequence(index, next);
          RecordedPlus(d0, Visit(base, st, types, false).reports, VisitAll(index, mid, types).reports);
      }
      ghost var inner := VisitOperands(e.operands, st, types);
      assert next == inner.state && diagnostics == Recorded(d0, inner.reports);
      if applySelf {
        next := ApplyUses(e.uses, next);
        RecordedPlus(d0, inner.reports, VisitUses(e.uses, inner.state, types).reports);
      }
    }

    /** Operands in order. */
    method VisitSequence(es: seq<Expr>, st: State) returns (next: State)
      requires Valid()
      modifies this
      ensures Valid()
      ensures var v := VisitAll(es, st, types);
              next == v.state && diagnostics == Recorded(old(diagnostics), v.reports)
      decreases es, 0
    {
      next := st;
      var i := 0;
      while i < |es|
        invariant 0 <= i <= |es| && Valid()
        invariant VisitAll(es[i..], next, types).state == VisitAll(es, st, types).state
        invariant Recorded(diagnostics, VisitAll(es[i..], next, types).reports)
               == Recorded(old(diagnostics), VisitAll(es, st, types).reports)
      {
        ghost var before, was := diagnostics, next;
        assert es[i..][0] == es[i] && es[i..][1..] == es[i + 1..];
        next := VisitExpression(es[i], next, true);
        RecordedPlus(before, Visit(es[i], was, types, true).reports, VisitAll(es[i + 1..], next, types).reports);
        i := i + 1;
      }
    }

    /** `initialize_local` for each binding of a `let`. */
    method InitializeLocals(roots: seq<Root>, span: nat, st: State) returns (next: State)
      ensures next == BindAll(roots, span, st)
    {
      next := st;
      var i := 0;
      while i < |roots|
        invariant 0 <= i <= |roots|
        invariant BindAll(roots[i..], span, next) == BindAll(roots, span, st)
      {
        assert roots[i..][0] == roots[i] && roots[i..][1..] == roots[i + 1..];
        next := SetPlace(next, Place(roots[i], []), Initialized(span));
        i := i + 1;
      }
    }

    /** `apply_pattern`. */
    method ApplySteps(steps: seq<PatternStep>, st: State) returns (next: State)
      requires Valid()
      modifies this
      ensures Valid()
      ensures var v := ApplyPattern(steps, st, types);
              next == v.state && diagnostics == Recorded(old(diagnostics), v.reports)
      decreases steps, 1
    {
      hide Recorded, ApplyEither;
      next := st;
      var i := 0;
      assert steps[0..] == steps;
      while i < |steps|
        invariant 0 <= i <= |steps| && Valid()
        invariant ApplyPattern(steps[i..], next, types).state == ApplyPattern(steps, st, types).state
        invariant Recorded(diagnostics, ApplyPattern(steps[i..], next, types).reports)
               == Recorded(old(diagnostics), ApplyPattern(steps, st, types).reports)
      {
        ghost var before, was := diagnostics, next;
        assert steps[i..][0] == steps[i] && steps[i..][1..] == steps[i + 1..];
        next := TakeStep(steps[i], next);
        RecordedPlus(before, ApplyStep(steps[i], was, types).reports,
                     ApplyPattern(steps[i + 1..], next, types).reports);
        i := i + 1;
      }
      assert steps[|steps|..] == [];
      RecordedNone(diagnostics);
    }

    /** One step: a value consumed, a name bound, or alternatives. */
    method TakeStep(s: PatternStep, st: State) returns (next: State)
      requires Valid()
      modifies this
      ensures Valid()
      ensures var v := ApplyStep(s, st, types);
              next == v.state && diagnostics == Recorded(old(diagnostics), v.reports)
      decreases s, 0
    {
      hide ApplyEither;
      match s {
        case Consume(u) =>
          next := st;
          if u.moves {
            next := MovePlace(u.place, u.span, st);
          } else {
            var _ := RequireAvailable(u.place, u.span, st);
          }
        case Bind(root, span) =>
          next := SetPlace(st, Place(root, []), Initialized(span));
        case Either(alternatives) =>
          var states := ApplyAlternatives(alternatives, st);
          var joined := JoinAll(states);
          next := if joined.Some? then joined.value else st;
      }
    }

    /** Its alternatives, each from a clone of the state. */
    method ApplyAlternatives(alternatives: seq<Alternative>, st: State) returns (states: seq<State>)
      requires Valid()
      modifies this
      ensures Valid()
      ensures var e := ApplyEither(alternatives, st, types);
              states == e.states && diagnostics == Recorded(old(diagnostics), e.reports)
      decreases alternatives, 0
    {
      hide Recorded, ApplyPattern;
      states := [];
      var i := 0;
      assert alternatives[0..] == alternatives;
      while i < |alternatives|
        invariant 0 <= i <= |alternatives| && Valid()
        invariant states + ApplyEither(alternatives[i..], st, types).states
               == ApplyEither(alternatives, st, types).states
        invariant Recorded(diagnostics, ApplyEither(alternatives[i..], st, types).reports)
               == Recorded(old(diagnostics), ApplyEither(alternatives, st, types).reports)
      {
        ghost var before := diagnostics;
        assert alternatives[i..][0] == alternatives[i] && alternatives[i..][1..] == alternatives[i + 1..];
        var state := ApplySteps(alternatives[i].steps, st);
        RecordedPlus(before, ApplyPattern(alternatives[i].steps, st, types).reports,
                     ApplyEither(alternatives[i + 1..], st, types).reports);
        states := states + [state];
        i := i + 1;
      }
      assert alternatives[|alternatives|..] == [];
      RecordedNone(diagnostics);
    }

    /** `check_block`. */
    method CheckBlock(stmts: seq<Stmt>, st: State) returns (flow: Flow)
      requires Valid()
      modifies this
      ensures Valid()
      ensures var c := MoveCheck.CheckBlock(stmts, st, types);
              flow == c.flow && diagnostics == Recorded(old(diagnostics), c.reports)
      decreases stmts, 0, 0
    {
      hide MoveCheck.CheckBlock, CheckStmt, DeadReports, Recorded, Remaining, Gathered;
      ghost var all := MoveCheck.CheckBlock(stmts, st, types);
      var normal, unreachable := Some(st), None;
      var breaks, continues: seq<State> := [], [];
      RemainingAll(stmts, st, types);
      GatheredAll(all, diagnostics);
      var i := 0;
      while i < |stmts|
        invariant 0 <= i <= |stmts| && Valid() && (normal.Some? || unreachable.Some?)
        invariant Gathered(all, old(diagnostics), Remaining(stmts[i..], normal, unreachable, types),
                           breaks, continues, diagnostics)
      {
        ghost var (b, c, now) := (breaks, continues, diagnostics);
        RemainingStep(stmts, i, normal, unreachable, types);
        if normal.Some? {
          var current := normal.value;
          var next := CheckStatement(stmts[i], current);
          normal := next.normal;
          breaks := breaks + next.breaks;
          continues := continues + next.continues;
          if normal.None? {
            unreachable := if next.dead.Some? then next.dead else Some(current);
          }
          GatheredMore(all, old(diagnostics), next.breaks, next.continues, CheckStmt(stmts[i], current, types).reports,
                       Remaining(stmts[i + 1..], normal, unreachable, types), b, c, now);
        } else {
          var current := unreachable.value;
          var next := CheckStatement(stmts[i], current);
          unreachable := if next.normal.Some? then next.normal else Some(current);
          GatheredMore(all, old(diagnostics), [], [], CheckStmt(stmts[i], current, types).reports,
                       Remaining(stmts[i + 1..], normal, unreachable, types), b, c, now);
          assert breaks + [] == breaks && continues + [] == continues;
        }
        i := i + 1;
      }
      RemainingNone(stmts, normal, unreachable, types);
      GatheredNone(all, old(diagnostics), Remaining(stmts[i..], normal, unreachable, types), breaks, continues,
                   diagnostics);
      flow := Flow(normal, None, breaks, continues);
    }

    /** `check_statement`. */
    method CheckStatement(s: Stmt, st: State) returns (flow: Flow)
      requires Valid()
      modifies this
      ensures Valid()
      ensures var c := CheckStmt(s, st, types);
              flow == c.flow && diagnostics == Recorded(old(diagnostics), c.reports)
      decreases s, 0, 1
    {
      match s {
        case Let(bindings, value, span) =>
          var v := VisitExpression(value, st, true);
          v := InitializeLocals(bindings, span, v);
          flow := Normal(v);
        case Assign(_, _, _, _, _) =>
          flow := CheckAssign(s, st);
        case Eval(value) =>
          var v := VisitExpression(value, st, true);
          flow := Normal(v);
        case Return(result) =>
          var v := VisitSequence(result, st);
          flow := Flow(None, Some(v), [], []);
        case If(_, _, _) =>
          flow := CheckIf(s, st);
        case While(condition, body) =>
          var exit := CheckWhile(condition, body, st);
          flow := Normal(exit);
        case For(binding, iterable, body, span) =>
          ghost var d0 := diagnostics;
          var v := VisitExpression(iterable, st, true);
          var exit := CheckFor(binding, span, body, v);
          RecordedPlus(d0, Visit(iterable, st, types, true).reports,
                       ForPasses(binding, span, body, v, v, [], Bound(types) + 1, types).reports);
          flow := Normal(exit);
        case Match(scrutinee, arms) =>
          ghost var d0 := diagnostics;
          var v := VisitExpression(scrutinee, st, true);
          flow := CheckMatch(arms, v);
          RecordedPlus(d0, Visit(scrutinee, st, types, true).reports, CheckArms(arms, v, types).reports);
        case Block(body) =>
          flow := CheckBlock(body, st);
        case Break =>
          flow := Flow(None, Some(st), [st], []);
        case Continue =>
          flow := Flow(None, Some(st), [], [st]);
        case Pass =>
          flow := Normal(st);
      }
    }

    method CheckAssign(s: Stmt, st: State) returns (flow: Flow)
      requires Valid() && s.Assign?
      modifies this
      ensures Valid()
      ensures var c := CheckStmt(s, st, types);
              flow == c.flow && diagnostics == Recorded(old(diagnostics), c.reports)
    {
      ghost var d0 := diagnostics;
      var i := VisitSequence(s.inputs, st);
      var v := VisitExpression(s.value, i, true);
      ghost var a, b := VisitAll(s.inputs, st, types).reports, Visit(s.value, i, types, true).reports;
      RecordedPlus(d0, a, b);
      ghost var usable := Usable(v, types, s.place);
      if s.compound {
        var _ := RequireAvailable(s.place, s.span, v);
      }
      RecordedPlus(d0, a + b, if s.compound && !usable then [MoveCheck.Report(s.span, NotAvailable)] else []);
      flow := Normal(SetPlace(v, s.place, Initialized(s.span)));
    }

    method CheckIf(s: Stmt, st: State) returns (flow: Flow)
      requires Valid() && s.If?
      modifies this
      ensures Valid()
      ensures var c := CheckStmt(s, st, types);
              flow == c.flow && diagnostics == Recorded(old(diagnostics), c.reports)
      decreases s, 0, 0
    {
      ghost var d0 := diagnostics;
      var v := VisitExpression(s.condition, st, true);
      var a := CheckBlock(s.thenBody, v);
      var b := CheckBlock(s.elseBody, v);
      ghost var rv := Visit(s.condition, st, types, true).reports;
      ghost var ra := MoveCheck.CheckBlock(s.thenBody, v, types).reports;
      ghost var rb := MoveCheck.CheckBlock(s.elseBody, v, types).reports;
      RecordedPlus(d0, rv, ra);
      RecordedPlus(d0, rv + ra, rb);
      flow := Flow(JoinAll(Chain(a.normal, b.normal)), JoinAll(Chain(a.dead, b.dead)),
                   a.breaks + b.breaks, a.continues + b.continues);
    }

    /** `check_while`: passes over the body until the head no longer changes, or the bound is hit. */
    method CheckWhile(condition: Expr, body: seq<Stmt>, entry: State) returns (exit: State)
      requires Valid()
      modifies this
      ensures Valid()
      ensures var l := WhilePasses(condition, body, entry, entry, [], Bound(types) + 1, types);
              exit == l.exit && diagnostics == Recorded(old(diagnostics), l.reports)
      decreases body, 1, 0
    {
      hide WhilePasses, Visit, MoveCheck.CheckBlock, Recorded, NextHead, JoinFrom, Bound;
      ghost var all := WhilePasses(condition, body, entry, entry, [], Bound(types) + 1, types);
      var head := entry;
      var breaks: seq<State> := [];
      var pass := 0;
      while pass <= Bound(types)
        invariant 0 <= pass <= Bound(types) + 1 && Valid()
        invariant WhilePasses(condition, body, entry, head, breaks, Bound(types) + 1 - pass, types).exit == all.exit
        invariant Recorded(diagnostics,
                    WhilePasses(condition, body, entry, head, breaks, Bound(types) + 1 - pass, types).reports)
               == Recorded(old(diagnostics), all.reports)
      {
        ghost var d0, left := diagnostics, Bound(types) - pass;
        WhileStep(condition, body, entry, head, breaks, left + 1, types);
        var v := VisitExpression(condition, head, true);
        var b := CheckBlock(body, v);
        ghost var rv, rb := Visit(condition, head, types, true).reports, MoveCheck.CheckBlock(body, v, types).reports;
        RecordedPlus(d0, rv, rb);
        breaks := breaks + b.breaks;
        var next := NextHead(entry, b);
        if next == head {
          return JoinFrom(v, breaks);
        }
        RecordedPlus(d0, rv + rb, WhilePasses(condition, body, entry, next, breaks, left, types).reports);
        head := next;
        pass := pass + 1;
      }
      WhileCutOff(condition, body, entry, head, breaks, types);
      var v := VisitExpression(condition, head, true);
      exit := JoinFrom(v, breaks);
    }

    /** `check_for`. */
    method CheckFor(binding: Root, span: nat, body: seq<Stmt>, entry: State) returns (exit: State)
      requires Valid()
      modifies this
      ensures Valid()
      ensures var l := ForPasses(binding, span, body, entry, entry, [], Bound(types) + 1, types);
              exit == l.exit && diagnostics == Recorded(old(diagnostics), l.reports)
      decreases body, 1, 0
    {
      hide ForPasses, MoveCheck.CheckBlock, Recorded, NextHead, JoinFrom, Bound, SetPlace;
      ghost var all := ForPasses(binding, span, body, entry, entry, [], Bound(types) + 1, types);
      var head := entry;
      var breaks: seq<State> := [];
      var pass := 0;
      while pass <= Bound(types)
        invariant 0 <= pass <= Bound(types) + 1 && Valid()
        invariant ForPasses(binding, span, body, entry, head, breaks, Bound(types) + 1 - pass, types).exit == all.exit
        invariant Recorded(diagnostics,
                    ForPasses(binding, span, body, entry, head, breaks, Bound(types) + 1 - pass, types).reports)
               == Recorded(old(diagnostics), all.reports)
      {
        ghost var d0, left := diagnostics, Bound(types) - pass;
        ForStep(binding, span, body, entry, head, breaks, left + 1, types);
        var iteration := SetPlace(head, Place(binding, []), Initialized(span));
        var b := CheckBlock(body, iteration);
        ghost var rb := MoveCheck.CheckBlock(body, iteration, types).reports;
        breaks := breaks + b.breaks;
        var next := NextHead(entry, b);
        if next == head {
          return JoinFrom(head, breaks);
        }
        RecordedPlus(d0, rb, ForPasses(binding, span, body, entry, next, breaks, left, types).reports);
        head := next;
        pass := pass + 1;
      }
      ForCutOff(binding, span, body, entry, head, breaks, types);
      RecordedNone(diagnostics);
      exit := JoinFrom(head, breaks);
    }

    /** `check_match`, after the scrutinee. */
    method CheckMatch(arms: seq<Arm>, st: State) returns (flow: Flow)
      requires Valid()
      modifies this
      ensures Valid()
      ensures var a := CheckArms(arms, st, types);
              && flow == Flow(JoinAll(a.normals), JoinAll(a.deads), a.breaks, a.continues)
              && diagnostics == Recorded(old(diagnostics), a.reports)
      decreases arms, 0, 0
    {
      hide CheckArms, MoveCheck.CheckBlock, ApplyPattern, VisitAll, Recorded, Chain, JoinAll;
      ghost var all := CheckArms(arms, st, types);
      assert arms[0..] == arms;
      var normals, deads, breaks, continues: seq<State> := [], [], [], [];
      var i := 0;
      while i < |arms|
        invariant 0 <= i <= |arms| && Valid()
        invariant var rest := CheckArms(arms[i..], st, types);
                  && all.normals == normals + rest.normals && all.deads == deads + rest.deads
                  && all.breaks == breaks + rest.breaks && all.continues == continues + rest.continues
                  && Recorded(diagnostics, rest.reports) == Recorded(old(diagnostics), all.reports)
      {
        ghost var d0 := diagnostics;
        ArmsStep(arms, i, st, types);
        var armState := ApplySteps(arms[i].pattern, st);
        var guarded := VisitSequence(arms[i].guard, armState);
        var b := CheckBlock(arms[i].body, guarded);
        ghost var rp := ApplyPattern(arms[i].pattern, st, types).reports;
        ghost var rg := VisitAll(arms[i].guard, armState, types).reports;
        ghost var rb := MoveCheck.CheckBlock(arms[i].body, guarded, types).reports;
        RecordedPlus(d0, rp, rg);
        RecordedPlus(d0, rp + rg, rb);
        RecordedPlus(d0, rp + rg + rb, CheckArms(arms[i + 1..], st, types).reports);
        normals := normals + Chain(b.normal, None);
        deads := deads + Chain(b.dead, None);
        breaks := breaks + b.breaks;
        continues := continues + b.continues;
        i := i + 1;
      }
      NoArms(arms, st, types);
      RecordedNone(diagnostics);
      assert normals + [] == normals && deads + [] == deads && breaks + [] == breaks && continues + [] == continues;
      flow := Flow(JoinAll(normals), JoinAll(deads), breaks, continues);
    }

    /** `check_function`.  Accepted well-formed bodies whose guards move nothing never go wrong, however
        often they are called.  Exactly the moves that no state allows are reported as such, each once. */
    method CheckFunction(body: seq<Stmt>, given: set<Root>, spans: Root -> nat)
      requires Valid() && diagnostics == []
      modifies this
      ensures Valid()
      ensures diagnostics == [] <==>
                MoveCheck.CheckBlock(body, InitialState(types, given, spans), types).reports == []
      ensures Once(diagnostics)
      ensures forall r: Report | r.reason != NotAvailable ::
                r in diagnostics <==> Forbidden(r, BlockUses(body), types)
      ensures diagnostics == [] && TypesOk(types) && BlockOk(body, types) && GuardsKeep(body) ==>
                && NeverUnsafe(body, types, given)
                && (forall calls :: !RunCalls(body, given, InitialAvail(given), types, calls).Unsafe?)
      ensures TypesOk(types) && BlockOk(body, types) && GuardsKeep(body) && Plain(body) ==>
                (diagnostics == [] <==> MovesAllowed(BlockUses(body), types) && NeverUnsafe(body, types, given))
    {
      var st := InitialState(types, given, spans);
      var _ := CheckBlock(body, st);
      RecordedEmpty(MoveCheck.CheckBlock(body, st, types).reports);
      RecordedOnce([], MoveCheck.CheckBlock(body, st, types).reports);
      forall r: Report | r.reason != NotAvailable
        ensures r in diagnostics <==> Forbidden(r, BlockUses(body), types)
      {
        RecordedMembers([], MoveCheck.CheckBlock(body, st, types).reports, r);
        BlockReported(r, body, st, types);
      }
      if diagnostics == [] && TypesOk(types) && BlockOk(body, types) && GuardsKeep(body) {
        forall choices ensures !RunBlock(body, InitialAvail(given), types, choices).Unsafe? {
          AcceptedIsSafe(body, types, given, spans, choices);
        }
        forall calls ensures !RunCalls(body, given, InitialAvail(given), types, calls).Unsafe? {
          CallsAreSafe(body, types, given, spans, calls);
        }
      }
      if TypesOk(types) && BlockOk(body, types) && GuardsKeep(body) && Plain(body) {
        AcceptedExactly(body, types, given, spans);
      }
    }
  }
}
