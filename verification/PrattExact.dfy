/** What the parser returns without a diagnostic is always a well-formed tree; with
    `PrattRoundTrip`, the parser accepts exactly the well-formed trees.
 */
module PrattExact {
  import opened Pratt
  import opened PrattLossless
  import opened PrattRoundTrip
  import opened PrattSteps
  import opened PrattTrees
  import opened Syntax
  import opened Wrappers

  // ------------------------------------------------------------------ errors are never dropped

  lemma {:induction false} ClimbErrors(ts: seq<Token>, left: Parsed, min: nat)
    requires Stream(ts) && left.next < |ts|
    ensures |left.errors| <= |Climb(ts, left, min).errors|
    decreases |ts| - left.next
  {
    hide Climb, ParseBp, ParsePostfix, ParseType, ComparisonNode, BindingPower, PostfixStart, Stops;
    var (q, token) := (left.next, ts[left.next]);
    PowerNotAs(token.kind);
    if PostfixStart(token.kind, left.node.kind) {
      PostfixStep(ts, left, min);
      PostfixErrors(ts, left);
      ClimbErrors(ts, ParsePostfix(ts, left), min);
    } else if token.kind == Word(As) && CAST_POWER >= min {
      var t := ParseType(ts, q + 1);
      CastStep(ts, left, t, min);
      ClimbErrors(ts, Parsed(SyntaxNode(CastExpression, [Node(left.node), Leaf(token), Node(t.node)]),
                             t.next, left.errors + t.errors), min);
    } else if BindingPower(token.kind).Some? && BindingPower(token.kind).value.left >= min {
      var right := ParseBp(ts, q + 1, BindingPower(token.kind).value.right);
      BinaryStep(ts, left, right, min);
      ClimbErrors(ts, BinaryParsed(ts, left, right), min);
    } else {
      WhenStops(token.kind, left.node.kind, min);
      StopStep(ts, left, min);
    }
  }

  lemma WhenStops(k: Kind, left: NodeKind, min: nat)
    ensures Stops(k, left, min) <==>
            && !PostfixStart(k, left) && !(k == Word(As) && CAST_POWER >= min)
            && !(BindingPower(k).Some? && BindingPower(k).value.left >= min)
  {
    hide PostfixStart, BindingPower;
  }

  lemma PostfixErrors(ts: seq<Token>, left: Parsed)
    requires Stream(ts) && left.next < |ts| && PostfixStart(ts[left.next].kind, left.node.kind)
    ensures |left.errors| <= |ParsePostfix(ts, left).errors|
  {
    hide ParseItems, ParseArguments;
  }

  // ------------------------------------------------------------------ building well-formed trees

  lemma MakeBinary(l: SyntaxNode, op: Token, r: SyntaxNode)
    requires BindingPower(op.kind).Some? && Well(l) && Well(r)
    requires var power := BindingPower(op.kind).value;
             && Level(l) >= power.left && Level(r) >= power.right
             && (power.comparison ==> !ComparisonNode(l) && !ComparisonNode(r))
    ensures var n := SyntaxNode(BinaryExpression, [Node(l), Leaf(op), Node(r)]);
            Well(n) && Level(n) == BindingPower(op.kind).value.left
  {
    hide ComparisonNode, Follow, BindingPower, WellUnary, WellCast, WellTuple, WellPostfix, WellItems;
    var cs := [Node(l), Leaf(op), Node(r)];
    var power := BindingPower(op.kind).value;
    assert WellOperand(cs[0], power.left) && WellOperand(cs[2], power.right);
    assert WellBinary(cs);
  }

  lemma MakeCast(e: SyntaxNode, token: Token, t: SyntaxNode)
    requires Well(e) && Level(e) >= CAST_POWER && token.kind == Word(As) && WellType(t)
    ensures var n := SyntaxNode(CastExpression, [Node(e), Leaf(token), Node(t)]);
            && Well(n) && Level(n) == CAST_POWER
            && forall k :: TypeFollow(k, t) ==> Follow(k, n)
  {
    hide TypeFollow, WellUnary, WellBinary, WellTuple, WellPostfix, WellItems, WellType;
    var cs := [Node(e), Leaf(token), Node(t)];
    assert WellOperand(cs[0], CAST_POWER) && WellEntry(cs[2], Types);
    assert WellCast(cs);
  }

  lemma MakePostfix(kind: NodeKind, e: SyntaxNode, token: Token, tail: seq<Element>)
    requires IsPostfix(kind) && Well(e) && Level(e) >= CAST_POWER && Level(e) != UNARY_POWER
    requires Follow(token.kind, e) && PostfixStart(token.kind, e.kind) && WellTail(kind, token.kind, tail)
    ensures var n := SyntaxNode(kind, [Node(e), Leaf(token)] + tail);
            Well(n) && Level(n) == Level(e) && forall k :: Follow(k, n)
  {
    hide WellUnary, WellBinary, WellTuple, WellCast, WellItems, WellTail;
    var cs := [Node(e), Leaf(token)] + tail;
    assert cs[2..] == tail;
    assert WellOperand(cs[0], CAST_POWER);
    assert WellPostfix(kind, cs);
  }

  lemma MakeUnary(op: Token, mark: seq<Element>, x: SyntaxNode)
    requires IsUnary(op.kind) && Well(x) && Level(x) >= UNARY_POWER
    requires mark == [] || (op.kind == Op(Amp) && |mark| == 1 && IsLeaf(mark[0], Word(Var)))
    ensures var n := SyntaxNode(UnaryExpression, [Leaf(op)] + mark + [Node(x)]);
            && Well(n) && Level(n) == UNARY_POWER
            && forall k :: Follow(k, x) && !PostfixStart(k, x.kind) ==> Follow(k, n)
  {
    hide WellPostfix, WellBinary, WellTuple, WellCast, WellItems;
    var cs := [Leaf(op)] + mark + [Node(x)];
    assert WellOperand(cs[|cs| - 1], UNARY_POWER);
    assert WellUnary(cs);
  }

  /** Only atoms, postfix forms and casts are ever followed by a postfix form. */
  lemma {:induction false} PostfixOperand(k: Kind, n: SyntaxNode)
    requires Well(n) && Follow(k, n) && PostfixStart(k, n.kind)
    ensures Level(n) >= CAST_POWER && Level(n) != UNARY_POWER
  {
    hide Well, TypeFollow;
    if n.kind == UnaryExpression {
      UnaryShape(n);
    } else if n.kind == BinaryExpression {
      BinaryShape(n);
    } else if IsPostfix(n.kind) {
      PostfixLevel(n);
    }
  }

  lemma PostfixLevel(n: SyntaxNode)
    requires Well(n) && IsPostfix(n.kind)
    ensures Level(n) >= CAST_POWER && Level(n) != UNARY_POWER
  {
    hide WellUnary, WellCast, WellBinary, WellTuple, WellItems, WellTail, Follow;
    assert WellPostfix(n.kind, n.children);
    assert WellOperand(n.children[0], CAST_POWER);
  }

  /** A cast or a binary operator follows only operands that bind at least as tightly. */
  lemma OperatorOperand(k: Kind, n: SyntaxNode)
    requires Well(n) && Follow(k, n)
    ensures k == Word(As) ==> Level(n) >= CAST_POWER
    ensures BindingPower(k).Some? ==> Level(n) >= BindingPower(k).value.left
  {
    hide Well, TypeFollow;
    if BindingPower(k).Some? {
      PowerStep(k);
    }
    if n.kind == BinaryExpression {
      BinaryShape(n);
    } else if IsPostfix(n.kind) {
      PostfixLevel(n);
    }
  }

  // ------------------------------------------------------------------ error-free parses

  ghost predicate GoodExpr(ts: seq<Token>, r: Parsed, min: nat) {
    && r.next < |ts| && Well(r.node) && Level(r.node) >= min
    && Follow(ts[r.next].kind, r.node)
  }

  lemma {:induction false} BpExact(ts: seq<Token>, p: nat, min: nat)
    requires Stream(ts) && p < |ts| && min <= UNARY_POWER && ParseBp(ts, p, min).errors == []
    ensures GoodExpr(ts, ParseBp(ts, p, min), min)
    ensures Stops(ts[ParseBp(ts, p, min).next].kind, ParseBp(ts, p, min).node.kind, min)
    decreases |ts| - p, 4
  {
    hide Climb, ParsePrefix, Well, Level, Follow;
    ClimbErrors(ts, ParsePrefix(ts, p), min);
    PrefixExact(ts, p);
    ClimbExact(ts, ParsePrefix(ts, p), min);
  }

  lemma {:induction false} ClimbExact(ts: seq<Token>, left: Parsed, min: nat)
    requires Stream(ts) && left.next < |ts| && GoodExpr(ts, left, min)
    requires Climb(ts, left, min).errors == []
    ensures GoodExpr(ts, Climb(ts, left, min), min)
    ensures Stops(ts[Climb(ts, left, min).next].kind, Climb(ts, left, min).node.kind, min)
    decreases |ts| - left.next, 2
  {
    hide Climb, ParsePostfix, ParseBp, ParseType, Well, Level, Follow, ComparisonNode, GoodExpr, BindingPower,
         PostfixStart;
    var (q, token) := (left.next, ts[left.next]);
    PowerNotAs(token.kind);
    if PostfixStart(token.kind, left.node.kind) {
      PostfixStep(ts, left, min);
      ClimbErrors(ts, ParsePostfix(ts, left), min);
      PostfixExact(ts, left, min);
      ClimbExact(ts, ParsePostfix(ts, left), min);
    } else if token.kind == Word(As) && CAST_POWER >= min {
      var t := ParseType(ts, q + 1);
      CastStep(ts, left, t, min);
      CastExact(ts, left, t, min);
    } else if BindingPower(token.kind).Some? && BindingPower(token.kind).value.left >= min {
      var right := ParseBp(ts, q + 1, BindingPower(token.kind).value.right);
      BinaryStep(ts, left, right, min);
      BinaryExact(ts, left, right, min);
    } else {
      StopStep(ts, left, min);
    }
  }

  lemma PowerNotAs(k: Kind)
    ensures k == Word(As) || k == Eof ==> BindingPower(k).None?
    ensures k == Eof ==> forall left :: !PostfixStart(k, left)
  {
  }

  lemma {:induction false} CastExact(ts: seq<Token>, left: Parsed, t: Parsed, min: nat)
    requires Stream(ts) && left.next < |ts| && GoodExpr(ts, left, min) && ts[left.next].kind == Word(As)
    requires CAST_POWER >= min && t == ParseType(ts, left.next + 1)
    requires Climb(ts, Parsed(SyntaxNode(CastExpression, [Node(left.node), Leaf(ts[left.next]), Node(t.node)]),
                              t.next, left.errors + t.errors), min).errors == []
    ensures var x := Parsed(SyntaxNode(CastExpression, [Node(left.node), Leaf(ts[left.next]), Node(t.node)]),
                            t.next, left.errors + t.errors);
            && GoodExpr(ts, Climb(ts, x, min), min)
            && Stops(ts[Climb(ts, x, min).next].kind, Climb(ts, x, min).node.kind, min)
    decreases |ts| - left.next, 1
  {
    hide Climb, ParseBp, ParseType, Well, Level, Follow, TypeFollow, WellType, Stops;
    var x := Parsed(SyntaxNode(CastExpression, [Node(left.node), Leaf(ts[left.next]), Node(t.node)]),
                    t.next, left.errors + t.errors);
    ClimbErrors(ts, x, min);
    TypeExact(ts, left.next + 1);
    OperatorOperand(ts[left.next].kind, left.node);
    MakeCast(left.node, ts[left.next], t.node);
    ClimbExact(ts, x, min);
  }

  lemma {:induction false} BinaryExact(ts: seq<Token>, left: Parsed, right: Parsed, min: nat)
    requires Stream(ts) && left.next < |ts| && GoodExpr(ts, left, min) && BindingPower(ts[left.next].kind).Some?
    requires BindingPower(ts[left.next].kind).value.left >= min
    requires right == ParseBp(ts, left.next + 1, BindingPower(ts[left.next].kind).value.right)
    requires Climb(ts, BinaryParsed(ts, left, right), min).errors == []
    ensures GoodExpr(ts, Climb(ts, BinaryParsed(ts, left, right), min), min)
    ensures Climb(ts, BinaryParsed(ts, left, right), min).next < |ts|
    ensures var r := Climb(ts, BinaryParsed(ts, left, right), min); Stops(ts[r.next].kind, r.node.kind, min)
    decreases |ts| - left.next, 1
  {
    hide Climb, ParseBp, Well, Level, Follow, BindingPower, ComparisonNode, PostfixStart;
    var x := BinaryParsed(ts, left, right);
    var power := BindingPower(ts[left.next].kind).value;
    ClimbErrors(ts, x, min);
    PowerStep(ts[left.next].kind);
    BpExact(ts, left.next + 1, power.right);
    OperatorOperand(ts[left.next].kind, left.node);
    MakeBinary(left.node, ts[left.next], right.node);
    BinaryFollows(ts[right.next].kind, left.node, ts[left.next], right.node);
    ClimbExact(ts, x, min);
  }

  ghost function BinaryParsed(ts: seq<Token>, left: Parsed, right: Parsed): Parsed
    requires left.next < |ts| && BindingPower(ts[left.next].kind).Some?
  {
    var chained := BindingPower(ts[left.next].kind).value.comparison
                   && (ComparisonNode(left.node) || ComparisonNode(right.node));
    Parsed(SyntaxNode(BinaryExpression, [Node(left.node), Leaf(ts[left.next]), Node(right.node)]),
           right.next, left.errors + right.errors + if chained then [left.next] else [])
  }

  lemma BinaryFollows(k: Kind, l: SyntaxNode, op: Token, r: SyntaxNode)
    requires BindingPower(op.kind).Some? && Follow(k, r) && Stops(k, r.kind, BindingPower(op.kind).value.right)
    requires Level(SyntaxNode(BinaryExpression, [Node(l), Leaf(op), Node(r)])) == BindingPower(op.kind).value.left
    ensures Follow(k, SyntaxNode(BinaryExpression, [Node(l), Leaf(op), Node(r)]))
  {
    hide Level, BindingPower, PostfixStart;
    PowerStep(op.kind);
  }

  lemma {:induction false} PrefixExact(ts: seq<Token>, p: nat)
    requires Stream(ts) && p < |ts| && ParsePrefix(ts, p).errors == []
    ensures GoodExpr(ts, ParsePrefix(ts, p), UNARY_POWER)
    decreases |ts| - p, 3
  {
    hide ParsePrefix, GoodExpr;
    AtomStep(ts, p);
    if IsUnary(ts[p].kind) {
      UnaryExact(ts, p);
    } else if ts[p].kind == LParen && ts[p + 1].kind != RParen {
      ParenthesizedExact(ts, p);
    } else if ts[p].kind == LBracket {
      ArrayExact(ts, p);
    } else {
      AtomExact(ts, p);
    }
  }

  lemma AtomExact(ts: seq<Token>, p: nat)
    requires Stream(ts) && p < |ts| && ts[p].kind != LBracket
    requires IsLiteral(ts[p].kind) || IsPath(ts[p].kind) || (ts[p].kind == LParen && ts[p + 1].kind == RParen)
    ensures GoodExpr(ts, ParsePrefix(ts, p), UNARY_POWER)
  {
    hide ParsePrefix, WellUnary, WellBinary, WellCast, WellPostfix, WellItems;
    AtomStep(ts, p);
    var n := ParsePrefix(ts, p).node;
    assert n.kind == TupleExpression ==> WellTuple(n.children);
  }

  lemma {:induction false} UnaryExact(ts: seq<Token>, p: nat)
    requires Stream(ts) && p < |ts| && IsUnary(ts[p].kind) && ParsePrefix(ts, p).errors == []
    ensures GoodExpr(ts, ParsePrefix(ts, p), UNARY_POWER)
    decreases |ts| - p, 2
  {
    hide ParsePrefix, ParseBp, Well, Level, Follow;
    var marked := ts[p].kind == Op(Amp) && ts[p + 1].kind == Word(Var);
    var mark := if marked then [Leaf(ts[p + 1])] else [];
    var x := ParseBp(ts, p + if marked then 2 else 1, UNARY_POWER);
    UnaryStep(ts, p, marked, x);
    BpExact(ts, p + if marked then 2 else 1, UNARY_POWER);
    MakeUnary(ts[p], mark, x.node);
  }

  lemma {:induction false} ParenthesizedExact(ts: seq<Token>, p: nat)
    requires Stream(ts) && p < |ts| && ts[p].kind == LParen && ts[p + 1].kind != RParen
    requires ParsePrefix(ts, p).errors == []
    ensures GoodExpr(ts, ParsePrefix(ts, p), UNARY_POWER)
    decreases |ts| - p, 2
  {
    hide ParsePrefix, ParseBp, ParseMore, Well, Level, Follow, WellMore;
    var first := ParseBp(ts, p + 1, 0);
    var rest := ParseMore(ts, first.next, Exprs, RParen, true);
    ParenthesizedStep(ts, p, first, rest);
    BpExact(ts, p + 1, 0);
    MoreExact(ts, first.next, Exprs, RParen, true);
    MakeParenthesized(ts[p], first.node, rest.items, ts[first.next].kind == Comma);
  }

  lemma MakeParenthesized(open: Token, x: SyntaxNode, rest: seq<Element>, tuple: bool)
    requires open.kind == LParen && Well(x) && WellMore(rest, Exprs, RParen, true) && (tuple <==> |rest| > 1)
    ensures var n := SyntaxNode(if tuple then TupleExpression else ParenthesizedExpression,
                                [Leaf(open), Node(x)] + rest);
            Well(n) && Level(n) == ATOM_POWER && forall k :: Follow(k, n)
  {
    hide WellUnary, WellBinary, WellCast, WellPostfix, WellItems;
    var cs := [Leaf(open), Node(x)] + rest;
    assert cs[2..] == rest;
    assert WellOperand(cs[1], 0);
    assert tuple ==> WellTuple(cs);
  }

  lemma {:induction false} ArrayExact(ts: seq<Token>, p: nat)
    requires Stream(ts) && p < |ts| && ts[p].kind == LBracket && ParsePrefix(ts, p).errors == []
    ensures GoodExpr(ts, ParsePrefix(ts, p), UNARY_POWER)
    decreases |ts| - p, 2
  {
    hide ParsePrefix, ParseItems, WellItems, WellUnary, WellBinary, WellCast, WellPostfix, WellTuple;
    var items := ParseItems(ts, p + 1, Exprs, RBracket);
    ArrayStep(ts, p, items);
    ItemsExact(ts, p + 1, Exprs, RBracket);
    assert ([Leaf(ts[p])] + items.items)[1..] == items.items;
  }

  lemma {:induction false} PostfixExact(ts: seq<Token>, left: Parsed, min: nat)
    requires Stream(ts) && left.next < |ts| && PostfixStart(ts[left.next].kind, left.node.kind)
    requires GoodExpr(ts, left, min) && ParsePostfix(ts, left).errors == []
    ensures GoodExpr(ts, ParsePostfix(ts, left), min)
    decreases |ts| - left.next, 1
  {
    hide ParsePostfix, ParseItems, ParseArguments, Well, Level, Follow, WellTail;
    TailStep(ts, left);
    PostfixOperand(ts[left.next].kind, left.node);
    var tail := TailExact(ts, left);
    MakePostfix(ParsePostfix(ts, left).node.kind, left.node, ts[left.next], tail);
  }

  lemma {:induction false} TailExact(ts: seq<Token>, left: Parsed) returns (tail: seq<Element>)
    requires Stream(ts) && left.next < |ts| && PostfixStart(ts[left.next].kind, left.node.kind)
    requires ParsePostfix(ts, left).errors == []
    ensures IsPostfix(ParsePostfix(ts, left).node.kind)
    ensures ParsePostfix(ts, left).node.children == [Node(left.node), Leaf(ts[left.next])] + tail
    ensures WellTail(ParsePostfix(ts, left).node.kind, ts[left.next].kind, tail)
    decreases |ts| - left.next, 0
  {
    hide ParsePostfix, ParseItems, ParseArguments, WellItems, WellMore, WellOperand;
    TailStep(ts, left);
    var (q, k) := (left.next + 1, ts[left.next].kind);
    tail := [];
    if k == Dot {
      tail := [Leaf(ts[q])];
    } else if k == LParen {
      ItemsExact(ts, q, Exprs, RParen);
      tail := ParseItems(ts, q, Exprs, RParen).items;
    } else if k == LBracket {
      ArgumentsExact(ts, q);
      tail := ParseArguments(ts, q).items;
    } else if k == LBrace {
      ItemsExact(ts, q, Fields, RBrace);
      tail := ParseItems(ts, q, Fields, RBrace).items;
    }
  }

  lemma {:induction false} ArgumentsExact(ts: seq<Token>, p: nat)
    requires Stream(ts) && p < |ts| && ParseArguments(ts, p).errors == []
    ensures WellTail(BracketExpression, LBracket, ParseArguments(ts, p).items)
    decreases |ts| - p, 7
  {
    hide ParseBp, ParseMore, WellItems, WellMore, Well, Level, Follow, Stops;
    if ts[p].kind != RBracket {
      var first := ParseBp(ts, p, 0);
      BpExact(ts, p, 0);
      MoreExact(ts, first.next, Exprs, RBracket, false);
      MakeArguments(first.node, ParseMore(ts, first.next, Exprs, RBracket, false).items);
    }
  }

  lemma MakeArguments(x: SyntaxNode, rest: seq<Element>)
    requires Well(x) && WellMore(rest, Exprs, RBracket, false)
    ensures WellTail(BracketExpression, LBracket, [Node(x)] + rest)
  {
    hide WellItems, Well, Level;
    var cs := [Node(x)] + rest;
    assert cs[1..] == rest;
    assert WellOperand(cs[0], 0);
  }

  lemma {:induction false} EntryExact(ts: seq<Token>, p: nat, rule: Rule)
    requires Stream(ts) && p < |ts| && ParseEntry(ts, p, rule).errors == []
    ensures WellEntry(Node(ParseEntry(ts, p, rule).node), rule)
    decreases |ts| - p, 5
  {
    hide ParseBp, ParseType, Well, WellType, Level, Follow, TypeFollow;
    match rule
    case Exprs => BpExact(ts, p, 0);
    case Types => TypeExact(ts, p);
    case Fields =>
      FieldStep(ts, p);
      if ts[p].kind == Identifier && ts[p + 1].kind == Colon {
        BpExact(ts, p + 2, 0);
        assert WellOperand(Node(ParseBp(ts, p + 2, 0).node), 0);
      }
  }

  lemma {:induction false} ItemsExact(ts: seq<Token>, p: nat, rule: Rule, close: Kind)
    requires Stream(ts) && p < |ts| && Closer(close) && ParseItems(ts, p, rule, close).errors == []
    ensures WellItems(ParseItems(ts, p, rule, close).items, rule, close)
    decreases |ts| - p, 6
  {
    hide ParseEntry, ParseItems, WellEntry;
    ItemsEnd(ts, p, rule, close);
    if ts[p].kind != Eof && ts[p].kind != close {
      var x := ParseEntry(ts, p, rule);
      ItemsStep(ts, p, rule, close, x);
      EntryExact(ts, p, rule);
      if ts[x.next].kind == Comma {
        var rest := ParseItems(ts, x.next + 1, rule, close);
        ItemsExact(ts, x.next + 1, rule, close);
        assert ([Node(x.node), Leaf(ts[x.next])] + rest.items)[2..] == rest.items;
      }
    }
  }

  /** A comma and an entry in front of the rest of a list. */
  lemma MoreGrown(comma: Token, x: SyntaxNode, rest: seq<Element>, rule: Rule, close: Kind, trailing: bool)
    requires comma.kind == Comma && WellEntry(Node(x), rule) && WellMore(rest, rule, close, trailing)
    ensures WellMore([Leaf(comma), Node(x)] + rest, rule, close, trailing)
  {
    hide WellEntry;
    var cs := [Leaf(comma), Node(x)] + rest;
    assert cs[2..] == rest && rest != [];
  }

  lemma MoreShort(cs: seq<Element>, rule: Rule, close: Kind, trailing: bool)
    ensures |cs| == 1 && IsLeaf(cs[0], close) ==> WellMore(cs, rule, close, trailing)
    ensures |cs| == 2 && IsLeaf(cs[0], Comma) && trailing && IsLeaf(cs[1], close) ==>
              WellMore(cs, rule, close, trailing)
  {
  }

  lemma {:induction false} MoreExact(ts: seq<Token>, p: nat, rule: Rule, close: Kind, trailing: bool)
    requires Stream(ts) && p < |ts| && Closer(close) && ParseMore(ts, p, rule, close, trailing).errors == []
    ensures WellMore(ParseMore(ts, p, rule, close, trailing).items, rule, close, trailing)
    ensures ts[p].kind == Comma <==> |ParseMore(ts, p, rule, close, trailing).items| > 1
    decreases |ts| - p, 6
  {
    hide ParseEntry, ParseMore, WellEntry, WellMore;
    MoreEnd(ts, p, rule, close, trailing);
    MoreShort(ParseMore(ts, p, rule, close, trailing).items, rule, close, trailing);
    if ts[p].kind == Comma && !(trailing && ts[p + 1].kind == close) {
      var x := ParseEntry(ts, p + 1, rule);
      MoreStep(ts, p, rule, close, trailing, x);
      EntryExact(ts, p + 1, rule);
      var rest := ParseMore(ts, x.next, rule, close, trailing);
      MoreExact(ts, x.next, rule, close, trailing);
      MoreGrown(ts[p], x.node, rest.items, rule, close, trailing);
    }
  }

  // ------------------------------------------------------------------ types

  ghost predicate GoodType(ts: seq<Token>, r: Parsed) {
    r.next < |ts| && WellType(r.node) && TypeFollow(ts[r.next].kind, r.node)
  }

  lemma {:induction false} TypeExact(ts: seq<Token>, p: nat)
    requires Stream(ts) && p < |ts| && ParseType(ts, p).errors == []
    ensures GoodType(ts, ParseType(ts, p))
    decreases |ts| - p, 4
  {
    hide ParseType, ParseSequenceType, WellMore, WellPath, WellArguments, WellMarks;
    TypeAtomStep(ts, p);
    var k := ts[p].kind;
    if k == Op(Amp) || k == Op(Star) {
      ReferenceExact(ts, p);
    } else if k == LBracket {
      SequenceExact(ts, p);
    } else if k == LParen && ts[p + 1].kind != RParen {
      TupleTypeExact(ts, p);
    } else if IsPath(k) {
      PathExact(ts, p);
    }
  }

  lemma {:induction false} TupleTypeExact(ts: seq<Token>, p: nat)
    requires Stream(ts) && p < |ts| && ts[p].kind == LParen && ts[p + 1].kind != RParen && ParseType(ts, p).errors == []
    ensures GoodType(ts, ParseType(ts, p))
    decreases |ts| - p, 3
  {
    hide ParseType, ParseMore, WellMore, GoodType;
    var first := ParseType(ts, p + 1);
    var rest := ParseMore(ts, first.next, Types, RParen, true);
    TupleTypeStep(ts, p, first);
    TypeExact(ts, p + 1);
    MoreExact(ts, first.next, Types, RParen, true);
    MakeTupleType(ts, ts[p], first, rest);
  }

  lemma MakeTupleType(ts: seq<Token>, open: Token, first: Parsed, rest: Listed)
    requires open.kind == LParen && GoodType(ts, first) && rest.next < |ts| && WellMore(rest.items, Types, RParen, true)
    ensures GoodType(ts, Parsed(SyntaxNode(Type, [Leaf(open), Node(first.node)] + rest.items), rest.next, []))
  {
    hide WellMarks, WellPath, WellArguments;
    assert ([Leaf(open), Node(first.node)] + rest.items)[2..] == rest.items;
  }

  lemma {:induction false} ReferenceExact(ts: seq<Token>, p: nat)
    requires Stream(ts) && p < |ts| && (ts[p].kind == Op(Amp) || ts[p].kind == Op(Star))
    requires ParseType(ts, p).errors == []
    ensures GoodType(ts, ParseType(ts, p))
    decreases |ts| - p, 3
  {
    hide ParseType, GoodType;
    ReferenceStep(ts, p);
    var mark := Eat(ts, p + 1, Word(Var));
    var foreign := Eat(ts, mark.next, Word(Unsafe));
    TypeExact(ts, foreign.next);
    MakeReference(ts, ts[p], mark.items + foreign.items, ParseType(ts, foreign.next));
    assert [Leaf(ts[p])] + (mark.items + foreign.items) == [Leaf(ts[p])] + mark.items + foreign.items;
  }

  lemma MakeReference(ts: seq<Token>, op: Token, marks: seq<Element>, t: Parsed)
    requires (op.kind == Op(Amp) || op.kind == Op(Star)) && WellMarks(marks) && GoodType(ts, t)
    ensures GoodType(ts, Parsed(SyntaxNode(Type, [Leaf(op)] + marks + [Node(t.node)]), t.next, t.errors))
  {
    hide WellMarks, WellPath, WellArguments, WellMore;
    var cs := [Leaf(op)] + marks + [Node(t.node)];
    assert cs[1..|cs| - 1] == marks;
  }

  lemma {:induction false} SequenceExact(ts: seq<Token>, p: nat)
    requires Stream(ts) && p < |ts| && ts[p].kind == LBracket && ParseType(ts, p).errors == []
    ensures GoodType(ts, ParseType(ts, p))
    decreases |ts| - p, 3
  {
    hide ParseType, ParseSequenceType, ParseBp, GoodType, Well, Level, Follow, Stops;
    TypeAtomStep(ts, p);
    var marked := ts[p + 1].kind == Word(Var);
    var t := ParseType(ts, p + if marked then 2 else 1);
    if ts[t.next].kind == Semicolon {
      var length := ParseBp(ts, t.next + 1, 0);
      SizedStep(ts, p, marked, t, length);
      TypeExact(ts, p + 1);
      BpExact(ts, t.next + 1, 0);
      MakeSized(ts, ts[p], t, ts[t.next], length, ts[length.next]);
    } else {
      SequenceStep(ts, p, marked, t);
      TypeExact(ts, p + if marked then 2 else 1);
      MakeSequence(ts, ts[p], if marked then [Leaf(ts[p + 1])] else [], t, ts[t.next]);
    }
  }

  lemma MakeSequence(ts: seq<Token>, open: Token, mark: seq<Element>, t: Parsed, close: Token)
    requires open.kind == LBracket && close.kind == RBracket && GoodType(ts, t) && t.next + 1 < |ts|
    requires mark == [] || (|mark| == 1 && IsLeaf(mark[0], Word(Var)))
    ensures GoodType(ts, Parsed(SyntaxNode(Type, [Leaf(open)] + mark + [Node(t.node), Leaf(close)]), t.next + 1, []))
  {
    hide WellMarks, WellPath, WellArguments, WellMore;
    var cs := [Leaf(open)] + mark + [Node(t.node), Leaf(close)];
    assert cs[|cs| - 2] == Node(t.node);
  }

  lemma MakeSized(ts: seq<Token>, open: Token, t: Parsed, semicolon: Token, length: Parsed, close: Token)
    requires open.kind == LBracket && semicolon.kind == Semicolon && close.kind == RBracket
    requires GoodType(ts, t) && Well(length.node) && length.next + 1 < |ts|
    ensures GoodType(ts, Parsed(SyntaxNode(Type, [Leaf(open), Node(t.node), Leaf(semicolon), Node(length.node),
                                                  Leaf(close)]),
                                length.next + 1, []))
  {
    hide WellMarks, WellPath, WellArguments, WellMore, Well, Level;
    assert WellOperand(Node(length.node), 0);
  }

  lemma {:induction false} PathExact(ts: seq<Token>, p: nat)
    requires Stream(ts) && p < |ts| && IsPath(ts[p].kind) && ParseType(ts, p).errors == []
    ensures GoodType(ts, ParseType(ts, p))
    decreases |ts| - p, 3
  {
    hide ParseType, ParseItems, PathTail, GoodType, WellItems, WellPath;
    var path := PathTail(ts, p + 1);
    PathStep(ts, p, path);
    if ts[path.next].kind == LBracket {
      PathTailExact(ts, p + 1);
      ItemsExact(ts, path.next + 1, Types, RBracket);
      MakeApplied(ts, ts[p], path.items, ts[path.next], ParseItems(ts, path.next + 1, Types, RBracket));
    } else {
      PathTailExact(ts, p + 1);
      MakeNamed(ts, ts[p], path);
    }
  }

  lemma {:induction false} PathTailExact(ts: seq<Token>, p: nat)
    requires Stream(ts) && p < |ts| && PathTail(ts, p).errors == []
    ensures WellPath(PathTail(ts, p).items) && ts[PathTail(ts, p).next].kind != Dot
    decreases |ts| - p
  {
    if ts[p].kind == Dot {
      var name := Expect(ts, p + 1, Identifier);
      var rest := PathTail(ts, name.next);
      PathTailExact(ts, name.next);
      assert ([Leaf(ts[p])] + name.items + rest.items)[2..] == rest.items;
    }
  }

  lemma {:induction false} PathLeaves(path: seq<Element>)
    requires WellPath(path)
    ensures forall i :: 0 <= i < |path| ==> path[i].Leaf?
  {
    if path != [] {
      PathLeaves(path[2..]);
      assert forall i :: 2 <= i < |path| ==> path[i] == path[2..][i - 2];
    }
  }

  lemma MakeNamed(ts: seq<Token>, name: Token, path: Listed)
    requires IsPath(name.kind) && WellPath(path.items) && path.next < |ts|
    requires ts[path.next].kind != Dot && ts[path.next].kind != LBracket
    ensures GoodType(ts, Parsed(SyntaxNode(Type, [Leaf(name)] + path.items), path.next, []))
  {
    hide WellMarks, WellPath, WellArguments, WellMore;
    var cs := [Leaf(name)] + path.items;
    PathLeaves(path.items);
    assert cs[1..] == path.items;
  }

  lemma MakeApplied(ts: seq<Token>, name: Token, path: seq<Element>, open: Token, items: Listed)
    requires IsPath(name.kind) && WellPath(path) && open.kind == LBracket && items.next < |ts|
    requires WellItems(items.items, Types, RBracket)
    ensures var arguments := SyntaxNode(TypeArguments, [Leaf(open)] + items.items);
            GoodType(ts, Parsed(SyntaxNode(Type, [Leaf(name)] + path + [Node(arguments)]), items.next, []))
  {
    hide WellMarks, WellPath, WellItems, WellMore;
    var arguments := SyntaxNode(TypeArguments, [Leaf(open)] + items.items);
    assert arguments.children[1..] == items.items;
    assert WellArguments(arguments);
    var cs := [Leaf(name)] + path + [Node(arguments)];
    assert cs[1..|cs| - 1] == path;
  }

  // ------------------------------------------------------------------ the grammar, exactly

  /** The parser accepts exactly the well-formed trees: `n` is what it makes of the tokens at `p`,
      without a diagnostic and stopping at `q`, just when `n` respects the binding powers, its
      leaves are those tokens, and the token at `q` belongs to no operand of it. */
  lemma AcceptsExactly(ts: seq<Token>, p: nat, min: nat, n: SyntaxNode, q: nat)
    requires Stream(ts) && p < |ts| && min <= UNARY_POWER
    ensures ParseBp(ts, p, min) == Parsed(n, q, []) <==>
            && Well(n) && Level(n) >= min && q < |ts| && Covers(ts, p, q, Leaves(n))
            && Follow(ts[q].kind, n) && Stops(ts[q].kind, n.kind, min)
  {
    hide ParseBp, Well, Level, Follow, Stops, Leaves;
    if ParseBp(ts, p, min) == Parsed(n, q, []) {
      BpExact(ts, p, min);
      BpLossless(ts, p, min);
    }
    if Well(n) && Level(n) >= min && q < |ts| && Covers(ts, p, q, Leaves(n))
       && Follow(ts[q].kind, n) && Stops(ts[q].kind, n.kind, min) {
      OperandCompletes(ts, p, n, min);
    }
  }

  /** The grammar is unambiguous: two well-formed expressions with the same tokens are the same. */
  lemma Unambiguous(m: SyntaxNode, n: SyntaxNode)
    requires Well(m) && Well(n) && Leaves(m) == Leaves(n) && forall t :: t in Leaves(m) ==> t.kind != Eof
    ensures m == n
  {
    hide ParseBp, Well, Level, Follow, Stops, Leaves;
    var ts := Leaves(m) + [Token(RParen, 0), Token(Eof, 0)];
    var q := |Leaves(m)|;
    forall i | 0 <= i < |ts| ensures ts[i].kind == Eof <==> i == |ts| - 1 {
      if i < q {
        assert Leaves(m)[i] in Leaves(m);
      }
    }
    ExprClosed(RParen, m);
    ExprClosed(RParen, n);
    OperandCompletes(ts, 0, m, 0);
    OperandCompletes(ts, 0, n, 0);
  }
}
