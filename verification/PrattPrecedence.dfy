/** The precedence list of the language reference: what the parser (src/parser.rs:1221-1323, 1782-1798)
    makes of expressions written with it, stated without the parser's table of binding powers.
 */
module PrattPrecedence {
  import opened Pratt
  import opened PrattRoundTrip
  import opened PrattSteps
  import opened PrattTrees
  import opened Syntax
  import opened Wrappers

  /** The binary operators from the tightest level to the loosest. */
  const BINARY: seq<set<Operator>> := [
    {Star, Slash, Percent}, {Plus, Minus, PlusPlus}, {Shl, Shr}, {Amp}, {Caret}, {Pipe},
    {Less, LessEq, Greater, GreaterEq}, {EqEq, NotEq}, {AndAnd}, {OrOr}]

  /** The operators written before their operand. */
  const PREFIX: set<Operator> := {Bang, Tilde, Plus, Minus, Star, Amp}

  ghost predicate At(o: Operator, level: nat) {
    level < |BINARY| && o in BINARY[level]
  }

  ghost predicate IsBinary(k: Kind) {
    k.Op? && exists level: nat :: At(k.op, level)
  }

  predicate Compares(o: Operator) {
    o in BINARY[6] || o in BINARY[7]
  }

  /** The levels are the binding powers, read from the other end. */
  lemma PowerOf(o: Operator, level: nat)
    requires At(o, level)
    ensures BindingPower(Op(o)) == Some(Power(10 - level, 11 - level, Compares(o)))
    ensures Compares(o) <==> IsComparison(Op(o))
  {
    match o
    case Star | Slash | Percent => assert level == 0;
    case Plus | PlusPlus | Minus => assert level == 1;
    case Shl | Shr => assert level == 2;
    case Amp => assert level == 3;
    case Caret => assert level == 4;
    case Pipe => assert level == 5;
    case Less | LessEq | Greater | GreaterEq => assert level == 6;
    case EqEq | NotEq => assert level == 7;
    case AndAnd => assert level == 8;
    case OrOr => assert level == 9;
    case _ =>
  }

  lemma PrefixOf(o: Operator)
    ensures o in PREFIX <==> IsUnary(Op(o))
  {
  }

  // ------------------------------------------------------------------ operands and what ends them

  predicate Atomic(k: Kind) {
    k == Identifier || k == PathWord || k == Integer || k == Literal
  }

  function Atom(t: Token): SyntaxNode {
    SyntaxNode(if t.kind == Identifier || t.kind == PathWord then NameExpression else LiteralExpression, [Leaf(t)])
  }

  function Binary(left: SyntaxNode, op: Token, right: SyntaxNode): SyntaxNode {
    SyntaxNode(BinaryExpression, [Node(left), Leaf(op), Node(right)])
  }

  function Unary(op: Token, operand: SyntaxNode): SyntaxNode {
    SyntaxNode(UnaryExpression, [Leaf(op), Node(operand)])
  }

  function Cast(operand: SyntaxNode, word: Token, name: Token): SyntaxNode {
    SyntaxNode(CastExpression, [Node(operand), Leaf(word), Node(SyntaxNode(Type, [Leaf(name)]))])
  }

  // ------------------------------------------------------------------ chains of any length

  /** `operands[0] ops[0] operands[1] ops[1] ...`, the operands single tokens. */
  ghost predicate Chain(operands: seq<Token>, ops: seq<Token>) {
    && |operands| == |ops| + 1
    && (forall t :: t in operands ==> Atomic(t.kind))
    && (forall t :: t in ops ==> IsBinary(t.kind))
  }

  function Written(operands: seq<Token>, ops: seq<Token>): seq<Token>
    requires |operands| == |ops| + 1
    decreases ops
  {
    if ops == [] then operands else [operands[0], ops[0]] + Written(operands[1..], ops[1..])
  }

  /** The operator that is applied last: of the loosest ones, the one furthest to the right. */
  ghost predicate Root(ops: seq<Token>, k: nat) {
    && k < |ops| && ops[k].kind.Op?
    && (forall i, m: nat, n: nat :: 0 <= i < |ops| && ops[i].kind.Op? && At(ops[i].kind.op, m) && At(ops[k].kind.op, n)
                                    ==> if i <= k then m <= n else m < n)
  }

  /** The tree splits a chain at its root, and each side again at its own. */
  ghost predicate Grouped(n: SyntaxNode, operands: seq<Token>, ops: seq<Token>)
    requires |operands| == |ops| + 1
    decreases ops
  {
    if ops == [] then n == Atom(operands[0])
    else
      exists k: nat, left: SyntaxNode, right: SyntaxNode ::
        && Root(ops, k) && n == Binary(left, ops[k], right)
        && Grouped(left, operands[..k + 1], ops[..k]) && Grouped(right, operands[k + 1..], ops[k + 1..])
  }

  /** The token at `p + 2 * i` is an operand, the one after it an operator, to the end of the chain. */
  ghost predicate Stands(ts: seq<Token>, p: nat, operands: seq<Token>, ops: seq<Token>) {
    && Stream(ts) && Chain(operands, ops) && p + 2 * |ops| + 1 < |ts|
    && (forall i :: 0 <= i < |operands| ==> ts[p + 2 * i] == operands[i])
    && (forall i :: 0 <= i < |ops| ==> ts[p + 2 * i + 1] == ops[i])
    && Ends(ts[p + 2 * |ops| + 1].kind)
  }

  function Left(t: Token): nat {
    if BindingPower(t.kind).Some? then BindingPower(t.kind).value.left else 0
  }

  lemma OperatorPower(t: Token)
    requires IsBinary(t.kind)
    ensures BindingPower(t.kind).Some? && BindingPower(t.kind).value.left == Left(t) <= 10
    ensures BindingPower(t.kind).value.right == Left(t) + 1
    ensures forall level: nat :: At(t.kind.op, level) <==> level == 10 - Left(t)
  {
    forall level: nat | At(t.kind.op, level) ensures level == 10 - Left(t) {
      PowerOf(t.kind.op, level);
    }
  }

  /** The parser took in the first `j` operators of the chain and grouped them. */
  ghost predicate Taken(r: Parsed, p: nat, operands: seq<Token>, ops: seq<Token>, min: nat, j: nat)
    requires Chain(operands, ops)
  {
    && j <= |ops| && r.next == p + 2 * j + 1 && Grouped(r.node, operands[..j + 1], ops[..j])
    && (forall i :: 0 <= i < j ==> Left(ops[i]) >= min)
    && (j < |ops| ==> Left(ops[j]) < min)
  }

  lemma AtomParsed(ts: seq<Token>, p: nat)
    requires Stream(ts) && p + 1 < |ts| && Atomic(ts[p].kind)
    ensures ParsePrefix(ts, p) == Parsed(Atom(ts[p]), p + 1, [])
    ensures Atom(ts[p]).kind == NameExpression || Atom(ts[p]).kind == LiteralExpression
  {
    AtomStep(ts, p);
  }

  lemma ChainTail(ts: seq<Token>, p: nat, operands: seq<Token>, ops: seq<Token>, i: nat)
    requires Stands(ts, p, operands, ops) && i <= |ops|
    ensures Stands(ts, p + 2 * i, operands[i..], ops[i..])
  {
    var (xs, os) := (operands[i..], ops[i..]);
    forall t | t in xs ensures t in operands {
    }
    forall t | t in os ensures t in ops {
    }
    forall k | 0 <= k < |xs| ensures ts[p + 2 * i + 2 * k] == xs[k] {
      assert ts[p + 2 * (i + k)] == operands[i + k];
    }
    forall k | 0 <= k < |os| ensures ts[p + 2 * i + 2 * k + 1] == os[k] {
      assert ts[p + 2 * (i + k) + 1] == ops[i + k];
    }
  }

  lemma {:induction false} BpChain(ts: seq<Token>, p: nat, operands: seq<Token>, ops: seq<Token>, min: nat)
    returns (j: nat)
    requires Stands(ts, p, operands, ops)
    ensures Taken(ParseBp(ts, p, min), p, operands, ops, min, j)
    decreases |ops|, 1, 0
  {
    hide Climb, ParsePrefix;
    assert ts[p + 2 * 0] == operands[0] && operands[0] in operands;
    AtomParsed(ts, p);
    var left := Parsed(Atom(ts[p]), p + 1, []);
    assert operands[..1] == [operands[0]] && ops[..0] == [];
    j := ClimbChain(ts, p, left, operands, ops, 0, min);
  }

  /** The parser has grouped the first `i` operators, none of them looser than the next. */
  ghost predicate Climbing(left: Parsed, p: nat, operands: seq<Token>, ops: seq<Token>, i: nat, min: nat)
    requires Chain(operands, ops)
  {
    && i <= |ops| && left.next == p + 2 * i + 1 && Grouped(left.node, operands[..i + 1], ops[..i])
    && (forall k :: 0 <= k < i ==> Left(ops[k]) >= min)
    && forall k :: 0 <= k < i < |ops| ==> Left(ops[k]) >= Left(ops[i])
  }

  lemma {:induction false} ClimbChain(ts: seq<Token>, p: nat, left: Parsed, operands: seq<Token>, ops: seq<Token>,
                                      i: nat, min: nat)
    returns (j: nat)
    requires Stands(ts, p, operands, ops) && Climbing(left, p, operands, ops, i, min)
    ensures Taken(Climb(ts, left, min), p, operands, ops, min, j)
    decreases |ops|, 0, |ops| - i, 1
  {
    hide Climb, Grouped, Left, At, Chain;
    ClimbingPlace(left, p, operands, ops, i, min);
    if i == |ops| {
      EndStops(ts[left.next].kind, left.node, min);
      StopStep(ts, left, min);
      j := i;
    } else {
      OperatorAt(ts, p, operands, ops, i);
      if Left(ops[i]) < min {
        OperatorStops(ops[i].kind, left.node, min);
        StopStep(ts, left, min);
        j := i;
      } else {
        var joined, j0 := ClimbOperator(ts, p, left, operands, ops, i, min);
        j := ClimbChain(ts, p, joined, operands, ops, j0, min);
      }
    }
  }

  lemma ClimbingPlace(left: Parsed, p: nat, operands: seq<Token>, ops: seq<Token>, i: nat, min: nat)
    requires Chain(operands, ops) && Climbing(left, p, operands, ops, i, min)
    ensures |operands| == |ops| + 1 && left.next == p + 2 * i + 1
    ensures || left.node.kind == BinaryExpression || left.node.kind == NameExpression
            || left.node.kind == LiteralExpression
  {
    NoPostfix(left.node, operands[..i + 1], ops[..i]);
  }

  lemma OperatorAt(ts: seq<Token>, p: nat, operands: seq<Token>, ops: seq<Token>, i: nat)
    requires Stands(ts, p, operands, ops) && i < |ops|
    ensures Stream(ts) && Chain(operands, ops) && p + 2 * i + 2 < |ts|
    ensures ts[p + 2 * i + 1] == ops[i] && BindingPower(ops[i].kind).Some?
    ensures BindingPower(ops[i].kind).value.left == Left(ops[i])
    ensures BindingPower(ops[i].kind).value.right == Left(ops[i]) + 1
  {
    assert ops[i] in ops;
    OperatorPower(ops[i]);
  }

  /** One operator and its right operand. */
  lemma {:induction false} ClimbOperator(ts: seq<Token>, p: nat, left: Parsed, operands: seq<Token>, ops: seq<Token>,
                                         i: nat, min: nat)
    returns (joined: Parsed, j: nat)
    requires Stands(ts, p, operands, ops) && Climbing(left, p, operands, ops, i, min)
    requires i < |ops| && Left(ops[i]) >= min
    ensures i < j && Climbing(joined, p, operands, ops, j, min)
    ensures joined.next < |ts| && Climb(ts, left, min) == Climb(ts, joined, min)
    decreases |ops|, 0, |ops| - i, 0
  {
    hide Climb, ParseBp, Taken, Chain, Left, ComparisonNode, BindingPower, Stands, Climbing;
    var o := ops[i];
    OperatorAt(ts, p, operands, ops, i);
    ClimbingPlace(left, p, operands, ops, i, min);
    ChainTail(ts, p, operands, ops, i + 1);
    var n := BpChain(ts, p + 2 * (i + 1), operands[i + 1..], ops[i + 1..], Left(o) + 1);
    var right := ParseBp(ts, left.next + 1, Left(o) + 1);
    BinaryStep(ts, left, right, min);
    var chained := BindingPower(o.kind).value.comparison
                   && (ComparisonNode(left.node) || ComparisonNode(right.node));
    var errors := left.errors + right.errors + if chained then [left.next] else [];
    j := i + 1 + n;
    joined := Parsed(Binary(left.node, o, right.node), right.next, errors);
    Joined(left, right, p, operands, ops, i, n, min, errors);
  }

  lemma Joined(left: Parsed, right: Parsed, p: nat, operands: seq<Token>, ops: seq<Token>, i: nat, n: nat, min: nat,
               errors: seq<nat>)
    requires Chain(operands, ops) && Climbing(left, p, operands, ops, i, min) && i < |ops| && Left(ops[i]) >= min
    requires Chain(operands[i + 1..], ops[i + 1..])
    requires Taken(right, p + 2 * (i + 1), operands[i + 1..], ops[i + 1..], Left(ops[i]) + 1, n)
    ensures Climbing(Parsed(Binary(left.node, ops[i], right.node), right.next, errors), p, operands, ops, i + 1 + n,
                     min)
  {
    hide Grouped, Left, At;
    var j := i + 1 + n;
    RightSide(ops, i, ops[i + 1..], n, Left(ops[i]) + 1);
    assert operands[i + 1..][..j - i] == operands[i + 1..][..n + 1];
    assert ops[i + 1..][..j - i - 1] == ops[i + 1..][..n];
    Regrouped(operands, ops, i, j, left.node, right.node);
  }

  lemma RightSide(ops: seq<Token>, i: nat, rest: seq<Token>, n: nat, min: nat)
    requires i < |ops| && rest == ops[i + 1..] && n <= |rest|
    requires forall k :: 0 <= k < n ==> Left(rest[k]) >= min
    requires n < |rest| ==> Left(rest[n]) < min
    ensures forall k :: i < k < i + 1 + n ==> Left(ops[k]) >= min
    ensures i + 1 + n < |ops| ==> Left(ops[i + 1 + n]) < min
  {
    hide Left;
    forall k | i < k < i + 1 + n ensures Left(ops[k]) >= min {
      assert ops[k] == rest[k - i - 1];
    }
    assert n < |rest| ==> ops[i + 1 + n] == rest[n];
  }

  /** Two groups and the operator between them, none on its left looser, those on its right tighter. */
  lemma Regrouped(operands: seq<Token>, ops: seq<Token>, i: nat, j: nat, left: SyntaxNode, right: SyntaxNode)
    requires Chain(operands, ops) && i < j <= |ops|
    requires Grouped(left, operands[..i + 1], ops[..i])
    requires Grouped(right, operands[i + 1..][..j - i], ops[i + 1..][..j - i - 1])
    requires forall k :: 0 <= k < i ==> Left(ops[k]) >= Left(ops[i])
    requires forall k :: i < k < j ==> Left(ops[k]) > Left(ops[i])
    ensures Grouped(Binary(left, ops[i], right), operands[..j + 1], ops[..j])
  {
    hide Root, Left, At;
    var (xs, os) := (operands[..j + 1], ops[..j]);
    RootAt(operands, ops, i, j);
    assert xs[..i + 1] == operands[..i + 1] && os[..i] == ops[..i];
    assert xs[i + 1..] == operands[i + 1..][..j - i] && os[i + 1..] == ops[i + 1..][..j - i - 1];
    assert os[i] == ops[i];
  }

  lemma RootAt(operands: seq<Token>, ops: seq<Token>, i: nat, j: nat)
    requires Chain(operands, ops) && i < j <= |ops|
    requires forall k :: 0 <= k < i ==> Left(ops[k]) >= Left(ops[i])
    requires forall k :: i < k < j ==> Left(ops[k]) > Left(ops[i])
    ensures Root(ops[..j], i)
  {
    hide Left, At;
    assert ops[i] in ops;
    OperatorPower(ops[i]);
    var os := ops[..j];
    forall k, m: nat, n: nat | 0 <= k < j && os[k].kind.Op? && At(os[k].kind.op, m) && At(os[i].kind.op, n)
      ensures if k <= i then m <= n else m < n
    {
      assert os[k] == ops[k] && ops[k] in ops;
      OperatorPower(ops[k]);
    }
  }

  /** A group is never continued by a record literal or another postfix form. */
  lemma NoPostfix(n: SyntaxNode, operands: seq<Token>, ops: seq<Token>)
    requires Chain(operands, ops) && Grouped(n, operands, ops)
    ensures n.kind == BinaryExpression || n.kind == NameExpression || n.kind == LiteralExpression
  {
  }

  lemma OperatorStops(k: Kind, n: SyntaxNode, min: nat)
    requires BindingPower(k).Some? && BindingPower(k).value.left < min
    ensures Stops(k, n.kind, min)
  {
    OperatorKind(k);
  }

  lemma EndStops(k: Kind, n: SyntaxNode, min: nat)
    requires Ends(k)
    requires n.kind == BinaryExpression || n.kind == NameExpression || n.kind == LiteralExpression
    ensures Stops(k, n.kind, min)
  {
  }

  /** Precedence: an expression written with binary operators is grouped, at every depth, at the
      operator that the precedence list applies last. */
  lemma ChainGrouped(ts: seq<Token>, p: nat, operands: seq<Token>, ops: seq<Token>)
    requires Stands(ts, p, operands, ops)
    ensures var r := ParseBp(ts, p, 0);
            r.next == p + 2 * |ops| + 1 && Grouped(r.node, operands, ops)
  {
    hide ParseBp;
    var j := BpChain(ts, p, operands, ops, 0);
    assert operands[..|ops| + 1] == operands && ops[..|ops|] == ops;
  }

  /** Two operators: the second is applied last exactly when it stands in the level of the first or in
      a looser one. */
  lemma TwoOperators(ts: seq<Token>, p: nat, m: nat, n: nat)
    requires Stream(ts) && p + 5 < |ts| && Ends(ts[p + 5].kind)
    requires Atomic(ts[p].kind) && Atomic(ts[p + 2].kind) && Atomic(ts[p + 4].kind)
    requires ts[p + 1].kind.Op? && At(ts[p + 1].kind.op, m) && ts[p + 3].kind.Op? && At(ts[p + 3].kind.op, n)
    ensures var (a, b, c) := (Atom(ts[p]), Atom(ts[p + 2]), Atom(ts[p + 4]));
            ParseBp(ts, p, 0).node == if n >= m then Binary(Binary(a, ts[p + 1], b), ts[p + 3], c)
                                      else Binary(a, ts[p + 1], Binary(b, ts[p + 3], c))
  {
    hide ParseBp, Grouped, At, Left, BindingPower;
    var (operands, ops) := ([ts[p], ts[p + 2], ts[p + 4]], [ts[p + 1], ts[p + 3]]);
    ChainGrouped(ts, p, operands, ops);
    OperatorPower(ops[0]);
    OperatorPower(ops[1]);
    GroupedTwo(ParseBp(ts, p, 0).node, operands, ops, m, n);
  }

  lemma GroupedTwo(t: SyntaxNode, operands: seq<Token>, ops: seq<Token>, m: nat, n: nat)
    requires |operands| == 3 && |ops| == 2 && Chain(operands, ops) && Grouped(t, operands, ops)
    requires forall level: nat :: At(ops[0].kind.op, level) <==> level == m
    requires forall level: nat :: At(ops[1].kind.op, level) <==> level == n
    ensures var (a, b, c) := (Atom(operands[0]), Atom(operands[1]), Atom(operands[2]));
            t == if n >= m then Binary(Binary(a, ops[0], b), ops[1], c)
                 else Binary(a, ops[0], Binary(b, ops[1], c))
  {
    var k: nat, left: SyntaxNode, right: SyntaxNode :|
      && Root(ops, k) && t == Binary(left, ops[k], right)
      && Grouped(left, operands[..k + 1], ops[..k]) && Grouped(right, operands[k + 1..], ops[k + 1..]);
    if k == 0 {
      GroupedOne(right, operands[1..], ops[1..]);
      assert left == Atom(operands[0]);
    } else {
      GroupedOne(left, operands[..2], ops[..1]);
      assert right == Atom(operands[2]);
    }
  }

  lemma GroupedOne(t: SyntaxNode, operands: seq<Token>, ops: seq<Token>)
    requires |operands| == 2 && |ops| == 1 && Grouped(t, operands, ops)
    ensures t == Binary(Atom(operands[0]), ops[0], Atom(operands[1]))
  {
    var k: nat, left: SyntaxNode, right: SyntaxNode :|
      && Root(ops, k) && t == Binary(left, ops[k], right)
      && Grouped(left, operands[..k + 1], ops[..k]) && Grouped(right, operands[k + 1..], ops[k + 1..]);
    assert k == 0;
  }

  // ------------------------------------------------------------------ prefix operators, casts and postfix forms

  /** An operator before its operand binds tighter than every binary operator on either side. */
  lemma PrefixThenBinary(ts: seq<Token>, p: nat, level: nat)
    requires Stream(ts) && p + 4 < |ts| && Ends(ts[p + 4].kind)
    requires ts[p].kind.Op? && ts[p].kind.op in PREFIX && Atomic(ts[p + 1].kind) && Atomic(ts[p + 3].kind)
    requires ts[p + 2].kind.Op? && At(ts[p + 2].kind.op, level)
    ensures ParseBp(ts, p, 0).node == Binary(Unary(ts[p], Atom(ts[p + 1])), ts[p + 2], Atom(ts[p + 3]))
  {
    hide Climb, ParsePrefix;
    PrefixParsed(ts, p);
    LastOperator(ts, Parsed(Unary(ts[p], Atom(ts[p + 1])), p + 2, []), level);
  }

  /** A binary operator with a single token after it, at the end of an expression. */
  lemma LastOperator(ts: seq<Token>, left: Parsed, level: nat)
    requires Stream(ts) && left.next + 2 < |ts| && Ends(ts[left.next + 2].kind)
    requires ts[left.next].kind.Op? && At(ts[left.next].kind.op, level) && Atomic(ts[left.next + 1].kind)
    ensures Climb(ts, left, 0).node == Binary(left.node, ts[left.next], Atom(ts[left.next + 1]))
  {
    hide Climb, ParseBp, Atom, BindingPower, At, ComparisonNode, Ends, Atomic;
    PowerOf(ts[left.next].kind.op, level);
    LastToken(ts, left.next + 1, 11 - level);
    BinaryStep(ts, left, Parsed(Atom(ts[left.next + 1]), left.next + 2, []), 0);
    Finished(ts, Binary(left.node, ts[left.next], Atom(ts[left.next + 1])), left.next + 2);
  }

  /** A single token at the end of an expression. */
  lemma LastToken(ts: seq<Token>, p: nat, min: nat)
    requires Stream(ts) && p + 1 < |ts| && Ends(ts[p + 1].kind) && Atomic(ts[p].kind)
    ensures ParseBp(ts, p, min) == Parsed(Atom(ts[p]), p + 1, [])
  {
    hide Climb, ParsePrefix, Atom;
    AtomParsed(ts, p);
    EndStops(ts[p + 1].kind, Atom(ts[p]), min);
    StopStep(ts, Parsed(Atom(ts[p]), p + 1, []), min);
  }

  /** Whatever is stopped at by every loop. */
  lemma Finished(ts: seq<Token>, n: SyntaxNode, p: nat)
    requires Stream(ts) && p < |ts| && Ends(ts[p].kind)
    requires n.kind != NameExpression && n.kind != MemberExpression && n.kind != BracketExpression
    ensures forall errors, min :: Climb(ts, Parsed(n, p, errors), min) == Parsed(n, p, errors)
  {
    hide Climb;
    forall errors: seq<nat>, min: nat ensures Climb(ts, Parsed(n, p, errors), min) == Parsed(n, p, errors) {
      StopStep(ts, Parsed(n, p, errors), min);
    }
  }

  /** A prefix operator takes a single token when a binary operator, `as` or an end follows it. */
  lemma PrefixParsed(ts: seq<Token>, p: nat)
    requires Stream(ts) && p + 2 < |ts| && ts[p].kind.Op? && ts[p].kind.op in PREFIX && Atomic(ts[p + 1].kind)
    requires || ts[p + 2].kind == Word(As) || Ends(ts[p + 2].kind)
             || IsBinary(ts[p + 2].kind)
    ensures ParsePrefix(ts, p) == Parsed(Unary(ts[p], Atom(ts[p + 1])), p + 2, [])
  {
    hide Climb;
    PrefixOf(ts[p].kind.op);
    AtomParsed(ts, p + 1);
    var operand := Parsed(Atom(ts[p + 1]), p + 2, []);
    if ts[p + 2].kind.Op? {
      OperatorPower(ts[p + 2]);
    }
    StopStep(ts, operand, UNARY_POWER);
    UnaryStep(ts, p, false, operand);
    assert [Leaf(ts[p])] + [] + [Node(operand.node)] == [Leaf(ts[p]), Node(operand.node)];
  }

  /** `as` binds looser than a prefix operator. */
  lemma PrefixThenCast(ts: seq<Token>, p: nat)
    requires Stream(ts) && p + 4 < |ts| && Ends(ts[p + 4].kind)
    requires ts[p].kind.Op? && ts[p].kind.op in PREFIX && Atomic(ts[p + 1].kind)
    requires ts[p + 2].kind == Word(As) && ts[p + 3].kind == Identifier
    ensures ParseBp(ts, p, 0).node == Cast(Unary(ts[p], Atom(ts[p + 1])), ts[p + 2], ts[p + 3])
  {
    hide Climb, ParsePrefix, ParseType;
    PrefixParsed(ts, p);
    NameType(ts, p + 3);
    CastStep(ts, Parsed(Unary(ts[p], Atom(ts[p + 1])), p + 2, []),
             Parsed(SyntaxNode(Type, [Leaf(ts[p + 3])]), p + 4, []), 0);
    Finished(ts, Cast(Unary(ts[p], Atom(ts[p + 1])), ts[p + 2], ts[p + 3]), p + 4);
  }

  lemma NameType(ts: seq<Token>, p: nat)
    requires Stream(ts) && p + 1 < |ts| && ts[p].kind == Identifier
    requires ts[p + 1].kind != Dot && ts[p + 1].kind != LBracket
    ensures ParseType(ts, p) == Parsed(SyntaxNode(Type, [Leaf(ts[p])]), p + 1, [])
  {
    PathTailStep(ts, p + 1);
    assert [Leaf(ts[p])] + [] == [Leaf(ts[p])];
  }

  /** `as` binds tighter than every binary operator before it. */
  lemma BinaryThenCast(ts: seq<Token>, p: nat, level: nat)
    requires Stream(ts) && p + 5 < |ts| && Ends(ts[p + 5].kind)
    requires Atomic(ts[p].kind) && Atomic(ts[p + 2].kind) && ts[p + 1].kind.Op? && At(ts[p + 1].kind.op, level)
    requires ts[p + 3].kind == Word(As) && ts[p + 4].kind == Identifier
    ensures ParseBp(ts, p, 0).node
         == Binary(Atom(ts[p]), ts[p + 1], Cast(Atom(ts[p + 2]), ts[p + 3], ts[p + 4]))
  {
    hide Climb, ParsePrefix, ParseType, Atom;
    PowerOf(ts[p + 1].kind.op, level);
    AtomParsed(ts, p);
    AtomParsed(ts, p + 2);
    NameType(ts, p + 4);
    var left := Parsed(Atom(ts[p]), p + 1, []);
    var right := Parsed(Cast(Atom(ts[p + 2]), ts[p + 3], ts[p + 4]), p + 5, []);
    CastStep(ts, Parsed(Atom(ts[p + 2]), p + 3, []), Parsed(SyntaxNode(Type, [Leaf(ts[p + 4])]), p + 5, []),
             11 - level);
    Finished(ts, right.node, p + 5);
    BinaryStep(ts, left, right, 0);
    Finished(ts, Binary(left.node, ts[p + 1], right.node), p + 5);
  }

  /** And than every binary operator after it. */
  lemma CastThenBinary(ts: seq<Token>, p: nat, level: nat)
    requires Stream(ts) && p + 5 < |ts| && Ends(ts[p + 5].kind)
    requires Atomic(ts[p].kind) && ts[p + 1].kind == Word(As) && ts[p + 2].kind == Identifier
    requires ts[p + 3].kind.Op? && At(ts[p + 3].kind.op, level) && Atomic(ts[p + 4].kind)
    ensures ParseBp(ts, p, 0).node
         == Binary(Cast(Atom(ts[p]), ts[p + 1], ts[p + 2]), ts[p + 3], Atom(ts[p + 4]))
  {
    hide Climb, ParsePrefix, ParseType, Atom, BindingPower, At;
    NoErrors();
    AtomParsed(ts, p);
    NameType(ts, p + 2);
    CastStep(ts, Parsed(Atom(ts[p]), p + 1, []), Parsed(SyntaxNode(Type, [Leaf(ts[p + 2])]), p + 3, []), 0);
    LastOperator(ts, Parsed(Cast(Atom(ts[p]), ts[p + 1], ts[p + 2]), p + 3, []), level);
  }

  /** Postfix forms bind tightest: a prefix operator applies to the member. */
  lemma PrefixThenMember(ts: seq<Token>, p: nat)
    requires Stream(ts) && p + 4 < |ts| && Ends(ts[p + 4].kind)
    requires ts[p].kind.Op? && ts[p].kind.op in PREFIX && Atomic(ts[p + 1].kind)
    requires ts[p + 2].kind == Dot && ts[p + 3].kind == Identifier
    ensures ParseBp(ts, p, 0).node
         == Unary(ts[p], SyntaxNode(MemberExpression, [Node(Atom(ts[p + 1])), Leaf(ts[p + 2]), Leaf(ts[p + 3])]))
  {
    hide Climb;
    PrefixOf(ts[p].kind.op);
    AtomParsed(ts, p + 1);
    var operand := Parsed(Atom(ts[p + 1]), p + 2, []);
    var member := SyntaxNode(MemberExpression, [Node(operand.node), Leaf(ts[p + 2]), Leaf(ts[p + 3])]);
    PostfixStep(ts, operand, UNARY_POWER);
    assert ParsePostfix(ts, operand) == Parsed(member, p + 4, []);
    StopStep(ts, Parsed(member, p + 4, []), UNARY_POWER);
    UnaryStep(ts, p, false, Parsed(member, p + 4, []));
    assert [Leaf(ts[p])] + [] + [Node(member)] == [Leaf(ts[p]), Node(member)];
    Finished(ts, Unary(ts[p], member), p + 4);
  }
}
