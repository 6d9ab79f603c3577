/** The expression and type trees the grammar means: operands respect the binding powers, and a
    token after an operand is never one the operand could have taken in.
 */
module PrattTrees {
  import opened Pratt
  import opened Syntax
  import opened Wrappers

  predicate IsLeaf(e: Element, k: Kind) {
    e.Leaf? && e.token.kind == k
  }

  predicate IsPostfix(k: NodeKind) {
    k == MemberExpression || k == TupleFieldExpression || k == CallExpression || k == BracketExpression
    || k == TryExpression || k == RecordExpression
  }

  /** How tightly a tree holds together; a postfix form has the level of its operand. */
  ghost function Level(n: SyntaxNode): nat
    decreases n
  {
    var cs := n.children;
    if n.kind == UnaryExpression then UNARY_POWER
    else if n.kind == CastExpression then CAST_POWER
    else if n.kind == BinaryExpression && |cs| == 3 && cs[1].Leaf? && BindingPower(cs[1].token.kind).Some? then
      BindingPower(cs[1].token.kind).value.left
    else if IsPostfix(n.kind) && cs != [] && cs[0].Node? then Level(cs[0].node)
    else ATOM_POWER
  }

  // ------------------------------------------------------------------ what may follow a tree

  /** A token of kind `k` after the type `n` is not part of it. */
  ghost predicate TypeFollow(k: Kind, n: SyntaxNode)
    decreases n
  {
    var cs := n.children;
    if cs == [] then true
    else if cs[0].Leaf? && IsPath(cs[0].token.kind) && cs[|cs| - 1].Leaf? then k != Dot && k != LBracket
    else if cs[0].Leaf? && (cs[0].token.kind == Op(Amp) || cs[0].token.kind == Op(Star)) && cs[|cs| - 1].Node? then
      TypeFollow(k, cs[|cs| - 1].node)
    else true
  }

  /** A token of kind `k` after the expression `n` is not taken in by its last operand. */
  ghost predicate Follow(k: Kind, n: SyntaxNode)
    decreases n
  {
    var cs := n.children;
    if n.kind == UnaryExpression && cs != [] && cs[|cs| - 1].Node? then
      var x := cs[|cs| - 1].node;
      !PostfixStart(k, x.kind) && Follow(k, x)
    else if n.kind == CastExpression && cs != [] && cs[|cs| - 1].Node? then TypeFollow(k, cs[|cs| - 1].node)
    else if n.kind == BinaryExpression && |cs| == 3 && cs[1].Leaf? && cs[2].Node? then
      var x := cs[2].node;
      && !PostfixStart(k, x.kind) && k != Word(As) && Follow(k, x)
      && (BindingPower(k).Some? ==> BindingPower(k).value.left <= Level(n))
    else true
  }

  // ------------------------------------------------------------------ well-formed trees

  ghost predicate Well(n: SyntaxNode)
    decreases n, 0
  {
    var cs := n.children;
    if n.kind == LiteralExpression then |cs| == 1 && cs[0].Leaf? && IsLiteral(cs[0].token.kind)
    else if n.kind == NameExpression then |cs| == 1 && cs[0].Leaf? && IsPath(cs[0].token.kind)
    else if n.kind == UnaryExpression then WellUnary(cs)
    else if n.kind == CastExpression then WellCast(cs)
    else if n.kind == BinaryExpression then WellBinary(cs)
    else if n.kind == ParenthesizedExpression then
      |cs| == 3 && IsLeaf(cs[0], LParen) && WellOperand(cs[1], 0) && IsLeaf(cs[2], RParen)
    else if n.kind == TupleExpression then WellTuple(cs)
    else if n.kind == ArrayExpression then
      cs != [] && IsLeaf(cs[0], LBracket) && WellItems(cs[1..], Exprs, RBracket)
    else IsPostfix(n.kind) && WellPostfix(n.kind, cs)
  }

  ghost predicate WellUnary(cs: seq<Element>)
    decreases cs, 6
  {
    && |cs| >= 2 && cs[0].Leaf? && IsUnary(cs[0].token.kind)
    && (|cs| == 2 || (|cs| == 3 && cs[0].token.kind == Op(Amp) && IsLeaf(cs[1], Word(Var))))
    && WellOperand(cs[|cs| - 1], UNARY_POWER)
  }

  ghost predicate WellCast(cs: seq<Element>)
    decreases cs, 6
  {
    |cs| == 3 && WellOperand(cs[0], CAST_POWER) && IsLeaf(cs[1], Word(As)) && WellEntry(cs[2], Types)
  }

  ghost predicate WellBinary(cs: seq<Element>)
    decreases cs, 6
  {
    && |cs| == 3 && cs[1].Leaf? && BindingPower(cs[1].token.kind).Some?
    && var power := BindingPower(cs[1].token.kind).value;
       && WellOperand(cs[0], power.left) && WellOperand(cs[2], power.right)
       && (power.comparison ==> !ComparisonNode(cs[0].node) && !ComparisonNode(cs[2].node))
  }

  ghost predicate WellTuple(cs: seq<Element>)
    decreases cs, 6
  {
    && |cs| >= 2 && IsLeaf(cs[0], LParen)
    && if |cs| == 2 then IsLeaf(cs[1], RParen)
       else |cs| > 3 && WellOperand(cs[1], 0) && WellMore(cs[2..], Exprs, RParen, true)
  }

  /** An atom, a postfix form or a cast, then a token it would not have taken in itself. */
  ghost predicate WellPostfix(kind: NodeKind, cs: seq<Element>)
    decreases cs, 6
  {
    && |cs| >= 2 && WellOperand(cs[0], CAST_POWER) && cs[1].Leaf?
    && Level(cs[0].node) != UNARY_POWER && Follow(cs[1].token.kind, cs[0].node)
    && PostfixStart(cs[1].token.kind, cs[0].node.kind)
    && WellTail(kind, cs[1].token.kind, cs[2..])
  }

  ghost predicate WellOperand(e: Element, min: nat)
    decreases e, 1
  {
    e.Node? && Well(e.node) && Level(e.node) >= min
  }

  /** What follows the operand and the first token `k` of a postfix form. */
  ghost predicate WellTail(kind: NodeKind, k: Kind, cs: seq<Element>)
    decreases cs, 5
  {
    if kind == MemberExpression then k == Dot && |cs| == 1 && IsLeaf(cs[0], Identifier)
    else if kind == TupleFieldExpression then k == Dot && |cs| == 1 && IsLeaf(cs[0], Integer)
    else if kind == TryExpression then k == Question && cs == []
    else if kind == CallExpression then k == LParen && WellItems(cs, Exprs, RParen)
    else if kind == RecordExpression then k == LBrace && WellItems(cs, Fields, RBrace)
    else
      && kind == BracketExpression && k == LBracket && |cs| >= 1
      && if |cs| == 1 then IsLeaf(cs[0], RBracket)
         else WellOperand(cs[0], 0) && WellMore(cs[1..], Exprs, RBracket, false)
  }

  ghost predicate WellEntry(e: Element, rule: Rule)
    decreases e, 2
  {
    && e.Node?
    && var cs := e.node.children;
    match rule
    case Exprs => Well(e.node)
    case Types => WellType(e.node)
    case Fields =>
      && e.node.kind == RecordField && |cs| >= 1 && IsLeaf(cs[0], Identifier)
      && (|cs| == 1 || (|cs| == 3 && IsLeaf(cs[1], Colon) && WellOperand(cs[2], 0)))
  }

  /** Elements separated by commas, perhaps none, perhaps with a comma at the end, then `close`. */
  ghost predicate WellItems(cs: seq<Element>, rule: Rule, close: Kind)
    decreases cs, 4
  {
    if |cs| <= 1 then |cs| == 1 && IsLeaf(cs[0], close)
    else
      && WellEntry(cs[0], rule)
      && if |cs| == 2 then IsLeaf(cs[1], close) else IsLeaf(cs[1], Comma) && WellItems(cs[2..], rule, close)
  }

  /** The rest of a list after an element. */
  ghost predicate WellMore(cs: seq<Element>, rule: Rule, close: Kind, trailing: bool)
    decreases cs, 4
  {
    if |cs| <= 1 then |cs| == 1 && IsLeaf(cs[0], close)
    else
      && IsLeaf(cs[0], Comma)
      && if |cs| == 2 then trailing && IsLeaf(cs[1], close)
         else WellEntry(cs[1], rule) && WellMore(cs[2..], rule, close, trailing)
  }

  ghost predicate WellType(n: SyntaxNode)
    decreases n, 0
  {
    var cs := n.children;
    && n.kind == Type && |cs| >= 1 && cs[0].Leaf?
    && var k := cs[0].token.kind;
       if k == Op(Bang) then |cs| == 1
       else if k == Op(Amp) || k == Op(Star) then
         && |cs| >= 2 && WellMarks(cs[1..|cs| - 1])
         && cs[|cs| - 1].Node? && WellType(cs[|cs| - 1].node)
       else if k == LBracket then
         || (|cs| == 3 && cs[1].Node? && WellType(cs[1].node) && IsLeaf(cs[2], RBracket))
         || (|cs| == 4 && IsLeaf(cs[1], Word(Var)) && cs[2].Node? && WellType(cs[2].node) && IsLeaf(cs[3], RBracket))
         || (|cs| == 5 && cs[1].Node? && WellType(cs[1].node) && IsLeaf(cs[2], Semicolon)
             && WellOperand(cs[3], 0) && IsLeaf(cs[4], RBracket))
       else if k == LParen then
         || (|cs| == 2 && IsLeaf(cs[1], RParen))
         || (|cs| > 2 && cs[1].Node? && WellType(cs[1].node) && WellMore(cs[2..], Types, RParen, true))
       else
         && IsPath(k)
         && if cs[|cs| - 1].Leaf? then WellPath(cs[1..])
            else WellPath(cs[1..|cs| - 1]) && WellArguments(cs[|cs| - 1].node)
  }

  /** `var` and `unsafe` after `&` or `*`. */
  ghost predicate WellMarks(cs: seq<Element>) {
    || cs == []
    || (|cs| == 1 && (IsLeaf(cs[0], Word(Var)) || IsLeaf(cs[0], Word(Unsafe))))
    || (|cs| == 2 && IsLeaf(cs[0], Word(Var)) && IsLeaf(cs[1], Word(Unsafe)))
  }

  /** `.name` any number of times. */
  ghost predicate WellPath(cs: seq<Element>)
    decreases cs
  {
    cs == [] || (|cs| >= 2 && IsLeaf(cs[0], Dot) && IsLeaf(cs[1], Identifier) && WellPath(cs[2..]))
  }

  ghost predicate WellArguments(n: SyntaxNode)
    decreases n, 0
  {
    && n.kind == TypeArguments && n.children != [] && IsLeaf(n.children[0], LBracket)
    && WellItems(n.children[1..], Types, RBracket)
  }
}
