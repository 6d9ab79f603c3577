/** The expression and type parser (src/parser.rs:668-812, 1217-1323, 1535-1575, 1686-1798) as a function of
    the tokens, the position and the minimum binding power: the tree built, the position reached,
    and the places diagnostics are reported at.
 */
module Pratt {
  import opened Syntax
  import opened Wrappers

  datatype Parsed = Parsed(node: SyntaxNode, next: nat, errors: seq<nat>)

  /** Children pushed onto an open node. */
  datatype Listed = Listed(items: seq<Element>, next: nat, errors: seq<nat>)

  /** What a comma-separated list holds. */
  datatype Rule = Exprs | Types | Fields

  datatype Power = Power(left: nat, right: nat, comparison: bool)

  const CAST_POWER: nat := 12
  const UNARY_POWER: nat := 13
  const ATOM_POWER: nat := 14

  // ------------------------------------------------------------------ token classes

  predicate IsUnary(k: Kind) {
    k == Op(Bang) || k == Op(Tilde) || k == Op(Plus) || k == Op(Minus) || k == Op(Star) || k == Op(Amp)
  }

  predicate IsLiteral(k: Kind) {
    k == Integer || k == Literal
  }

  predicate IsPath(k: Kind) {
    k == Identifier || k == PathWord
  }

  predicate IsLineEnd(k: Kind) {
    k == Newline || k == Dedent || k == Eof
  }

  predicate IsBoundary(k: Kind) {
    IsLineEnd(k) || k == Comma || k == Colon || k == RParen || k == RBracket || k == RBrace
  }

  predicate IsTypeBoundary(k: Kind) {
    IsBoundary(k) || k == Assign || k == Op(Plus)
  }

  predicate IsComparison(k: Kind) {
    k == Op(Less) || k == Op(LessEq) || k == Op(Greater) || k == Op(GreaterEq) || k == Op(EqEq) || k == Op(NotEq)
  }

  function BindingPower(k: Kind): Option<Power> {
    if !k.Op? then None
    else
      match k.op
      case OrOr => Some(Power(1, 2, false))
      case AndAnd => Some(Power(2, 3, false))
      case EqEq | NotEq => Some(Power(3, 4, true))
      case Less | LessEq | Greater | GreaterEq => Some(Power(4, 5, true))
      case Pipe => Some(Power(5, 6, false))
      case Caret => Some(Power(6, 7, false))
      case Amp => Some(Power(7, 8, false))
      case Shl | Shr => Some(Power(8, 9, false))
      case Plus | PlusPlus | Minus => Some(Power(9, 10, false))
      case Star | Slash | Percent => Some(Power(10, 11, false))
      case Bang | Tilde => None
  }

  predicate TakesFields(k: NodeKind) {
    k == NameExpression || k == MemberExpression || k == BracketExpression
  }

  /** Whether a postfix form starts at a token of kind `k` after a node of kind `left`. */
  predicate PostfixStart(k: Kind, left: NodeKind) {
    k == Dot || k == LParen || k == LBracket || k == Question || (k == LBrace && TakesFields(left))
  }

  /** No expression or type begins with a closing token, a mark or the end of the stream. */
  predicate Starts(k: Kind) {
    IsUnary(k) || IsLiteral(k) || k == LParen || k == LBracket || IsPath(k)
  }

  /** Tokens that end every expression and every type. */
  predicate Ends(k: Kind) {
    Closes(k) || IsLineEnd(k) || k == Colon || k == Assign || k == CompoundAssign
  }

  /** Those of them that end an entry of a list, too. */
  predicate Closes(k: Kind) {
    k == Comma || k == Semicolon || Closer(k)
  }

  predicate Closer(k: Kind) {
    k == RParen || k == RBracket || k == RBrace
  }

  /** The loop with minimum `min` stops at a token of kind `k` after a node of kind `left`. */
  predicate Stops(k: Kind, left: NodeKind, min: nat) {
    && !PostfixStart(k, left)
    && (k == Word(As) ==> CAST_POWER < min)
    && (BindingPower(k).Some? ==> BindingPower(k).value.left < min)
  }

  predicate ComparisonNode(n: SyntaxNode) {
    n.kind == BinaryExpression && exists c :: c in n.children && c.Leaf? && IsComparison(c.token.kind)
  }

  // ------------------------------------------------------------------ the parser

  /** `expect_simple`, `expect_identifier`: a token of kind `k`, or a diagnostic. */
  function Expect(ts: seq<Token>, p: nat, k: Kind): (r: Listed)
    requires Stream(ts) && p < |ts| && k != Eof
    ensures p <= r.next < |ts|
  {
    if ts[p].kind == k then Listed([Leaf(ts[p])], p + 1, []) else Listed([], p, [p])
  }

  /** `eat_simple`, `eat_keyword`. */
  function Eat(ts: seq<Token>, p: nat, k: Kind): (r: Listed)
    requires Stream(ts) && p < |ts| && k != Eof
    ensures p <= r.next < |ts|
  {
    if ts[p].kind == k then Listed([Leaf(ts[p])], p + 1, []) else Listed([], p, [])
  }

  /** `parse_expression_bp`. */
  function ParseBp(ts: seq<Token>, p: nat, min: nat): (r: Parsed)
    requires Stream(ts) && p < |ts|
    ensures p <= r.next < |ts|
    decreases |ts| - p, 4
  {
    Climb(ts, ParsePrefix(ts, p), min)
  }

  /** The loop of `parse_expression_bp` with `left` parsed so far. */
  function Climb(ts: seq<Token>, left: Parsed, min: nat): (r: Parsed)
    requires Stream(ts) && left.next < |ts|
    ensures left.next <= r.next < |ts|
    decreases |ts| - left.next, 2
  {
    var (q, token) := (left.next, ts[left.next]);
    if PostfixStart(token.kind, left.node.kind) then Climb(ts, ParsePostfix(ts, left), min)
    else if token.kind == Word(As) then
      if CAST_POWER < min then left
      else
        var t := ParseType(ts, q + 1);
        Climb(ts, Parsed(SyntaxNode(CastExpression, [Node(left.node), Leaf(token), Node(t.node)]),
                         t.next, left.errors + t.errors), min)
    else
      match BindingPower(token.kind)
      case None => left
      case Some(power) =>
        if power.left < min then left
        else
          var right := ParseBp(ts, q + 1, power.right);
          var chained := power.comparison && (ComparisonNode(left.node) || ComparisonNode(right.node));
          Climb(ts, Parsed(SyntaxNode(BinaryExpression, [Node(left.node), Leaf(token), Node(right.node)]), right.next,
                           left.errors + right.errors + if chained then [q] else []), min)
  }

  /** `parse_prefix_expression`. */
  function ParsePrefix(ts: seq<Token>, p: nat): (r: Parsed)
    requires Stream(ts) && p < |ts|
    ensures p <= r.next < |ts|
    decreases |ts| - p, 3
  {
    var token := ts[p];
    if IsUnary(token.kind) then
      var mark := if token.kind == Op(Amp) then Eat(ts, p + 1, Word(Var)) else Listed([], p + 1, []);
      var x := ParseBp(ts, mark.next, UNARY_POWER);
      Parsed(SyntaxNode(UnaryExpression, [Leaf(token)] + mark.items + [Node(x.node)]), x.next, x.errors)
    else if IsLiteral(token.kind) then Parsed(SyntaxNode(LiteralExpression, [Leaf(token)]), p + 1, [])
    else if token.kind == LParen then ParseParenthesized(ts, p)
    else if token.kind == LBracket then
      var items := ParseItems(ts, p + 1, Exprs, RBracket);
      Parsed(SyntaxNode(ArrayExpression, [Leaf(token)] + items.items), items.next, items.errors)
    else if IsPath(token.kind) then Parsed(SyntaxNode(NameExpression, [Leaf(token)]), p + 1, [])
    else if IsBoundary(token.kind) then Parsed(SyntaxNode(Error, []), p, [p])
    else Parsed(SyntaxNode(Error, [Leaf(token)]), p + 1, [p])
  }

  /** `parse_parenthesized_or_tuple`. */
  function ParseParenthesized(ts: seq<Token>, p: nat): (r: Parsed)
    requires Stream(ts) && p < |ts| && ts[p].kind == LParen
    ensures p < r.next < |ts|
    decreases |ts| - p, 2
  {
    if ts[p + 1].kind == RParen then
      Parsed(SyntaxNode(TupleExpression, [Leaf(ts[p]), Leaf(ts[p + 1])]), p + 2, [])
    else
      var first := ParseBp(ts, p + 1, 0);
      var rest := ParseMore(ts, first.next, Exprs, RParen, true);
      var kind := if ts[first.next].kind == Comma then TupleExpression else ParenthesizedExpression;
      Parsed(SyntaxNode(kind, [Leaf(ts[p]), Node(first.node)] + rest.items), rest.next, first.errors + rest.errors)
  }

  /** `parse_postfix` where a postfix form starts. */
  function ParsePostfix(ts: seq<Token>, left: Parsed): (r: Parsed)
    requires Stream(ts) && left.next < |ts| && PostfixStart(ts[left.next].kind, left.node.kind)
    ensures left.next < r.next < |ts|
    decreases |ts| - left.next, 1
  {
    var (q, token) := (left.next + 1, ts[left.next]);
    var (kind, tail) :=
      if token.kind == Dot then
        if ts[q].kind == Integer then (TupleFieldExpression, Expect(ts, q, Integer))
        else (MemberExpression, Expect(ts, q, Identifier))
      else if token.kind == LParen then (CallExpression, ParseItems(ts, q, Exprs, RParen))
      else if token.kind == LBracket then (BracketExpression, ParseArguments(ts, q))
      else if token.kind == Question then (TryExpression, Listed([], q, []))
      else (RecordExpression, ParseItems(ts, q, Fields, RBrace));
    Parsed(SyntaxNode(kind, [Node(left.node), Leaf(token)] + tail.items), tail.next, left.errors + tail.errors)
  }

  /** What is between brackets after an operand, and the closing bracket. */
  function ParseArguments(ts: seq<Token>, p: nat): (r: Listed)
    requires Stream(ts) && p < |ts|
    ensures p <= r.next < |ts|
    decreases |ts| - p, 7
  {
    if ts[p].kind == RBracket then Listed([Leaf(ts[p])], p + 1, [])
    else
      var first := ParseBp(ts, p, 0);
      var rest := ParseMore(ts, first.next, Exprs, RBracket, false);
      Listed([Node(first.node)] + rest.items, rest.next, first.errors + rest.errors)
  }

  /** One element of a list. */
  function ParseEntry(ts: seq<Token>, p: nat, rule: Rule): (r: Parsed)
    requires Stream(ts) && p < |ts|
    ensures p <= r.next < |ts|
    decreases |ts| - p, 5
  {
    match rule
    case Exprs => ParseBp(ts, p, 0)
    case Types => ParseType(ts, p)
    case Fields =>
      var name := Expect(ts, p, Identifier);
      if ts[name.next].kind == Colon then
        var x := ParseBp(ts, name.next + 1, 0);
        Parsed(SyntaxNode(RecordField, name.items + [Leaf(ts[name.next]), Node(x.node)]), x.next,
               name.errors + x.errors)
      else Parsed(SyntaxNode(RecordField, name.items), name.next, name.errors)
  }

  /** A list that may be empty and may end in a comma, and its closing token. */
  function ParseItems(ts: seq<Token>, p: nat, rule: Rule, close: Kind): (r: Listed)
    requires Stream(ts) && p < |ts| && close != Eof
    ensures p <= r.next < |ts|
    decreases |ts| - p, 6
  {
    if ts[p].kind == Eof || ts[p].kind == close then Expect(ts, p, close)
    else
      var x := ParseEntry(ts, p, rule);
      if ts[x.next].kind == Comma then
        var rest := ParseItems(ts, x.next + 1, rule, close);
        Listed([Node(x.node), Leaf(ts[x.next])] + rest.items, rest.next, x.errors + rest.errors)
      else
        var end := Expect(ts, x.next, close);
        Listed([Node(x.node)] + end.items, end.next, x.errors + end.errors)
  }

  /** The rest of a list after an element, where only `trailing` lists may end in a comma. */
  function ParseMore(ts: seq<Token>, p: nat, rule: Rule, close: Kind, trailing: bool): (r: Listed)
    requires Stream(ts) && p < |ts| && close != Eof
    ensures p <= r.next < |ts|
    decreases |ts| - p, 6
  {
    if ts[p].kind != Comma then Expect(ts, p, close)
    else if trailing && ts[p + 1].kind == close then Listed([Leaf(ts[p]), Leaf(ts[p + 1])], p + 2, [])
    else
      var x := ParseEntry(ts, p + 1, rule);
      var rest := ParseMore(ts, x.next, rule, close, trailing);
      Listed([Leaf(ts[p]), Node(x.node)] + rest.items, rest.next, x.errors + rest.errors)
  }

  /** `parse_type`. */
  function ParseType(ts: seq<Token>, p: nat): (r: Parsed)
    requires Stream(ts) && p < |ts|
    ensures p <= r.next < |ts|
    decreases |ts| - p, 4
  {
    var token := ts[p];
    if token.kind == Op(Bang) then Parsed(SyntaxNode(Type, [Leaf(token)]), p + 1, [])
    else if token.kind == Op(Amp) || token.kind == Op(Star) then
      var mark := Eat(ts, p + 1, Word(Var));
      var foreign := Eat(ts, mark.next, Word(Unsafe));
      var t := ParseType(ts, foreign.next);
      Parsed(SyntaxNode(Type, [Leaf(token)] + mark.items + foreign.items + [Node(t.node)]), t.next, t.errors)
    else if token.kind == Word(Unsafe) then Parsed(SyntaxNode(Type, [Leaf(token)]), p + 1, [p + 1])
    else if token.kind == LBracket then ParseSequenceType(ts, p)
    else if token.kind == LParen then
      if ts[p + 1].kind == RParen then Parsed(SyntaxNode(Type, [Leaf(token), Leaf(ts[p + 1])]), p + 2, [])
      else
        var first := ParseType(ts, p + 1);
        var rest := ParseMore(ts, first.next, Types, RParen, true);
        Parsed(SyntaxNode(Type, [Leaf(token), Node(first.node)] + rest.items), rest.next, first.errors + rest.errors)
    else if IsPath(token.kind) then
      var path := PathTail(ts, p + 1);
      if ts[path.next].kind == LBracket then
        var items := ParseItems(ts, path.next + 1, Types, RBracket);
        var arguments := SyntaxNode(TypeArguments, [Leaf(ts[path.next])] + items.items);
        Parsed(SyntaxNode(Type, [Leaf(token)] + path.items + [Node(arguments)]), items.next, path.errors + items.errors)
      else Parsed(SyntaxNode(Type, [Leaf(token)] + path.items), path.next, path.errors)
    else if IsTypeBoundary(token.kind) then Parsed(SyntaxNode(Type, []), p, [p])
    else Parsed(SyntaxNode(Type, [Leaf(token)]), p + 1, [p])
  }

  /** `[T]`, `[var T]` and `[T; N]`. */
  function ParseSequenceType(ts: seq<Token>, p: nat): (r: Parsed)
    requires Stream(ts) && p < |ts| && ts[p].kind == LBracket
    ensures p < r.next < |ts|
    decreases |ts| - p, 3
  {
    var mark := Eat(ts, p + 1, Word(Var));
    var t := ParseType(ts, mark.next);
    var head := [Leaf(ts[p])] + mark.items + [Node(t.node)];
    if ts[t.next].kind == Semicolon then
      var length := ParseBp(ts, t.next + 1, 0);
      var end := Expect(ts, length.next, RBracket);
      Parsed(SyntaxNode(Type, head + [Leaf(ts[t.next]), Node(length.node)] + end.items), end.next,
             t.errors + (if mark.items != [] then [p] else []) + length.errors + end.errors)
    else
      var end := Expect(ts, t.next, RBracket);
      Parsed(SyntaxNode(Type, head + end.items), end.next, t.errors + end.errors)
  }

  /** The dotted part of a path. */
  function PathTail(ts: seq<Token>, p: nat): (r: Listed)
    requires Stream(ts) && p < |ts|
    ensures p <= r.next < |ts|
    decreases |ts| - p
  {
    if ts[p].kind != Dot then Listed([], p, [])
    else
      var name := Expect(ts, p + 1, Identifier);
      var rest := PathTail(ts, name.next);
      Listed([Leaf(ts[p])] + name.items + rest.items, rest.next, name.errors + rest.errors)
  }
}
