/** Single steps of the parser, each about one function of `Pratt` and nothing else.
 */
module PrattSteps {
  import opened Pratt
  import opened Syntax
  import opened Wrappers

  lemma StopStep(ts: seq<Token>, left: Parsed, min: nat)
    requires Stream(ts) && left.next < |ts|
    ensures Climb(ts, left, min) == left <== Stops(ts[left.next].kind, left.node.kind, min)
  {
    hide ParseBp, ParsePostfix, ParseType, ComparisonNode;
  }

  lemma BinaryStep(ts: seq<Token>, left: Parsed, right: Parsed, min: nat)
    requires Stream(ts) && left.next + 1 < |ts| && BindingPower(ts[left.next].kind).Some?
    requires ParseBp(ts, left.next + 1, BindingPower(ts[left.next].kind).value.right) == right
    requires min <= BindingPower(ts[left.next].kind).value.left
    ensures var chained := BindingPower(ts[left.next].kind).value.comparison
                           && (ComparisonNode(left.node) || ComparisonNode(right.node));
            Climb(ts, left, min) ==
              Climb(ts, Parsed(SyntaxNode(BinaryExpression, [Node(left.node), Leaf(ts[left.next]), Node(right.node)]),
                               right.next, left.errors + right.errors + if chained then [left.next] else []), min)
  {
    hide ParseBp, ComparisonNode, ParsePostfix, ParseType, BindingPower, PostfixStart;
    OperatorKind(ts[left.next].kind);
  }

  /** A binary operator is not the end of the stream, a cast or the start of a postfix form. */
  lemma OperatorKind(k: Kind)
    ensures BindingPower(k).Some? ==> k != Eof && k != Word(As)
    ensures forall left :: PostfixStart(k, left) ==> k != Eof && k != Word(As) && BindingPower(k).None?
  {
  }

  lemma CastStep(ts: seq<Token>, left: Parsed, t: Parsed, min: nat)
    requires Stream(ts) && left.next + 1 < |ts| && ts[left.next].kind == Word(As) && min <= CAST_POWER
    requires ParseType(ts, left.next + 1) == t
    ensures Climb(ts, left, min)
         == Climb(ts, Parsed(SyntaxNode(CastExpression, [Node(left.node), Leaf(ts[left.next]), Node(t.node)]),
                             t.next, left.errors + t.errors), min)
  {
    hide ParseType, ParseBp, ParsePostfix, ComparisonNode;
  }

  lemma PostfixStep(ts: seq<Token>, left: Parsed, min: nat)
    requires Stream(ts) && left.next + 1 < |ts| && PostfixStart(ts[left.next].kind, left.node.kind)
    ensures Climb(ts, left, min) == Climb(ts, ParsePostfix(ts, left), min)
  {
    hide ParseType, ParseBp, ParsePostfix, ComparisonNode;
  }

  lemma UnaryStep(ts: seq<Token>, p: nat, marked: bool, x: Parsed)
    requires Stream(ts) && p + 1 < |ts| && IsUnary(ts[p].kind)
    requires marked == (ts[p].kind == Op(Amp) && ts[p + 1].kind == Word(Var))
    requires ParseBp(ts, p + (if marked then 2 else 1), UNARY_POWER) == x
    ensures ParsePrefix(ts, p)
         == Parsed(SyntaxNode(UnaryExpression,
                              [Leaf(ts[p])] + (if marked then [Leaf(ts[p + 1])] else []) + [Node(x.node)]),
                   x.next, x.errors)
  {
    hide ParseBp, ParseParenthesized, ParseItems;
  }

  lemma ParenthesizedStep(ts: seq<Token>, p: nat, first: Parsed, rest: Listed)
    requires Stream(ts) && p + 1 < |ts| && ts[p].kind == LParen && ts[p + 1].kind != RParen
    requires ParseBp(ts, p + 1, 0) == first && ParseMore(ts, first.next, Exprs, RParen, true) == rest
    ensures ParsePrefix(ts, p)
         == Parsed(SyntaxNode(if ts[first.next].kind == Comma then TupleExpression else ParenthesizedExpression,
                              [Leaf(ts[p]), Node(first.node)] + rest.items), rest.next, first.errors + rest.errors)
  {
    hide ParseBp, ParseMore, ParseItems;
  }

  lemma ArrayStep(ts: seq<Token>, p: nat, items: Listed)
    requires Stream(ts) && p + 1 < |ts| && ts[p].kind == LBracket
    requires ParseItems(ts, p + 1, Exprs, RBracket) == items
    ensures ParsePrefix(ts, p)
         == Parsed(SyntaxNode(ArrayExpression, [Leaf(ts[p])] + items.items), items.next, items.errors)
  {
    hide ParseBp, ParseMore, ParseItems, ParseParenthesized;
  }

  /** The token `p` begins one of the remaining prefix forms: a single token or the unit tuple. */
  lemma AtomStep(ts: seq<Token>, p: nat)
    requires Stream(ts) && p < |ts|
    ensures IsLiteral(ts[p].kind) ==>
              ParsePrefix(ts, p) == Parsed(SyntaxNode(LiteralExpression, [Leaf(ts[p])]), p + 1, [])
    ensures IsPath(ts[p].kind) ==> ParsePrefix(ts, p) == Parsed(SyntaxNode(NameExpression, [Leaf(ts[p])]), p + 1, [])
    ensures ts[p].kind == LParen && ts[p + 1].kind == RParen ==>
              ParsePrefix(ts, p) == Parsed(SyntaxNode(TupleExpression, [Leaf(ts[p]), Leaf(ts[p + 1])]), p + 2, [])
    ensures !Starts(ts[p].kind) ==> ParsePrefix(ts, p).errors == [p]
  {
    hide ParseBp, ParseItems, ParseMore;
  }

  lemma ItemsEnd(ts: seq<Token>, p: nat, rule: Rule, close: Kind)
    requires Stream(ts) && p < |ts| && Closer(close)
    ensures ts[p].kind == close ==> ParseItems(ts, p, rule, close) == Listed([Leaf(ts[p])], p + 1, [])
    ensures ts[p].kind == Eof ==> ParseItems(ts, p, rule, close).errors != []
  {
    hide ParseEntry;
  }

  lemma ItemsStep(ts: seq<Token>, p: nat, rule: Rule, close: Kind, x: Parsed)
    requires Stream(ts) && p < |ts| && Closer(close) && ts[p].kind != Eof && ts[p].kind != close
    requires ParseEntry(ts, p, rule) == x
    ensures ParseItems(ts, p, rule, close)
         == if ts[x.next].kind == Comma then
              var rest := ParseItems(ts, x.next + 1, rule, close);
              Listed([Node(x.node), Leaf(ts[x.next])] + rest.items, rest.next, x.errors + rest.errors)
            else
              var end := Expect(ts, x.next, close);
              Listed([Node(x.node)] + end.items, end.next, x.errors + end.errors)
  {
    hide ParseEntry;
  }

  lemma MoreEnd(ts: seq<Token>, p: nat, rule: Rule, close: Kind, trailing: bool)
    requires Stream(ts) && p < |ts| && Closer(close)
    ensures ts[p].kind == close ==> ParseMore(ts, p, rule, close, trailing) == Listed([Leaf(ts[p])], p + 1, [])
    ensures ts[p].kind == Comma && trailing && ts[p + 1].kind == close ==>
              ParseMore(ts, p, rule, close, trailing) == Listed([Leaf(ts[p]), Leaf(ts[p + 1])], p + 2, [])
    ensures ts[p].kind != Comma && ts[p].kind != close ==> ParseMore(ts, p, rule, close, trailing).errors != []
  {
    hide ParseEntry;
  }

  lemma MoreStep(ts: seq<Token>, p: nat, rule: Rule, close: Kind, trailing: bool, x: Parsed)
    requires Stream(ts) && p < |ts| && Closer(close) && ts[p].kind == Comma && !(trailing && ts[p + 1].kind == close)
    requires ParseEntry(ts, p + 1, rule) == x
    ensures var rest := ParseMore(ts, x.next, rule, close, trailing);
            ParseMore(ts, p, rule, close, trailing) ==
              Listed([Leaf(ts[p]), Node(x.node)] + rest.items, rest.next, x.errors + rest.errors)
  {
    hide ParseEntry;
  }

  lemma FieldStep(ts: seq<Token>, p: nat)
    requires Stream(ts) && p < |ts|
    ensures ts[p].kind != Identifier ==> ParseEntry(ts, p, Fields).errors != []
    ensures ts[p].kind == Identifier && ts[p + 1].kind != Colon ==>
              ParseEntry(ts, p, Fields) == Parsed(SyntaxNode(RecordField, [Leaf(ts[p])]), p + 1, [])
    ensures ts[p].kind == Identifier && ts[p + 1].kind == Colon ==>
              var x := ParseBp(ts, p + 2, 0);
              ParseEntry(ts, p, Fields) ==
                Parsed(SyntaxNode(RecordField, [Leaf(ts[p]), Leaf(ts[p + 1]), Node(x.node)]), x.next, x.errors)
  {
    hide ParseBp, ParseType;
  }

  /** What a postfix form is, by the token it begins with and the one after. */
  function TailKind(ts: seq<Token>, q: nat, k: Kind): NodeKind
    requires Stream(ts) && q < |ts|
  {
    if k == Dot then if ts[q].kind == Integer then TupleFieldExpression else MemberExpression
    else if k == LParen then CallExpression
    else if k == LBracket then BracketExpression
    else if k == Question then TryExpression
    else RecordExpression
  }

  /** What follows that token. */
  function Tail(ts: seq<Token>, q: nat, k: Kind): Listed
    requires Stream(ts) && q < |ts|
  {
    if k == Dot then Expect(ts, q, if ts[q].kind == Integer then Integer else Identifier)
    else if k == LParen then ParseItems(ts, q, Exprs, RParen)
    else if k == LBracket then ParseArguments(ts, q)
    else if k == Question then Listed([], q, [])
    else ParseItems(ts, q, Fields, RBrace)
  }

  lemma TailStep(ts: seq<Token>, left: Parsed)
    requires Stream(ts) && left.next + 1 < |ts| && PostfixStart(ts[left.next].kind, left.node.kind)
    ensures var (q, k) := (left.next + 1, ts[left.next].kind);
            var tail := Tail(ts, q, k);
            ParsePostfix(ts, left) ==
              Parsed(SyntaxNode(TailKind(ts, q, k), [Node(left.node), Leaf(ts[left.next])] + tail.items), tail.next,
                     left.errors + tail.errors)
  {
    hide ParseItems, ParseArguments;
  }

  lemma ArgumentsStep(ts: seq<Token>, p: nat, first: Parsed)
    requires Stream(ts) && p < |ts| && ts[p].kind != RBracket && ParseBp(ts, p, 0) == first
    ensures var rest := ParseMore(ts, first.next, Exprs, RBracket, false);
            ParseArguments(ts, p) == Listed([Node(first.node)] + rest.items, rest.next, first.errors + rest.errors)
  {
    hide ParseBp, ParseMore;
  }

  lemma ReferenceStep(ts: seq<Token>, p: nat)
    requires Stream(ts) && p < |ts| && (ts[p].kind == Op(Amp) || ts[p].kind == Op(Star))
    ensures var mark := Eat(ts, p + 1, Word(Var));
            var foreign := Eat(ts, mark.next, Word(Unsafe));
            var t := ParseType(ts, foreign.next);
            ParseType(ts, p) ==
              Parsed(SyntaxNode(Type, [Leaf(ts[p])] + mark.items + foreign.items + [Node(t.node)]), t.next, t.errors)
  {
    hide ParseItems, ParseMore, ParseSequenceType, PathTail;
  }

  lemma TupleTypeStep(ts: seq<Token>, p: nat, first: Parsed)
    requires Stream(ts) && p < |ts| && ts[p].kind == LParen && ts[p + 1].kind != RParen
    requires ParseType(ts, p + 1) == first
    ensures var rest := ParseMore(ts, first.next, Types, RParen, true);
            ParseType(ts, p) ==
              Parsed(SyntaxNode(Type, [Leaf(ts[p]), Node(first.node)] + rest.items), rest.next,
                     first.errors + rest.errors)
  {
    hide ParseItems, ParseMore, ParseSequenceType, PathTail;
  }

  lemma PathStep(ts: seq<Token>, p: nat, path: Listed)
    requires Stream(ts) && p < |ts| && IsPath(ts[p].kind) && PathTail(ts, p + 1) == path
    ensures ts[path.next].kind != LBracket ==>
              ParseType(ts, p) == Parsed(SyntaxNode(Type, [Leaf(ts[p])] + path.items), path.next, path.errors)
    ensures ts[path.next].kind == LBracket ==>
              var items := ParseItems(ts, path.next + 1, Types, RBracket);
              var arguments := SyntaxNode(TypeArguments, [Leaf(ts[path.next])] + items.items);
              ParseType(ts, p) ==
                Parsed(SyntaxNode(Type, [Leaf(ts[p])] + path.items + [Node(arguments)]), items.next,
                       path.errors + items.errors)
  {
    hide ParseItems, ParseMore, ParseSequenceType, PathTail;
  }

  lemma TypeAtomStep(ts: seq<Token>, p: nat)
    requires Stream(ts) && p < |ts|
    ensures ts[p].kind == Op(Bang) ==> ParseType(ts, p) == Parsed(SyntaxNode(Type, [Leaf(ts[p])]), p + 1, [])
    ensures ts[p].kind == LParen && ts[p + 1].kind == RParen ==>
              ParseType(ts, p) == Parsed(SyntaxNode(Type, [Leaf(ts[p]), Leaf(ts[p + 1])]), p + 2, [])
    ensures ts[p].kind == LBracket ==> ParseType(ts, p) == ParseSequenceType(ts, p)
    ensures var k := ts[p].kind;
            k != Op(Bang) && k != Op(Amp) && k != Op(Star) && k != LBracket && k != LParen && !IsPath(k) ==>
              ParseType(ts, p).errors != []
  {
    hide ParseItems, ParseMore, ParseSequenceType, PathTail;
  }

  /** The three outcomes of `[T]`, `[var T]` and `[T; N]`. */
  lemma SequenceStep(ts: seq<Token>, p: nat, marked: bool, t: Parsed)
    requires Stream(ts) && p + 1 < |ts| && ts[p].kind == LBracket && marked == (ts[p + 1].kind == Word(Var))
    requires ParseType(ts, p + if marked then 2 else 1) == t && ts[t.next].kind != Semicolon
    ensures ts[t.next].kind == RBracket ==>
              ParseSequenceType(ts, p) ==
                Parsed(SyntaxNode(Type, [Leaf(ts[p])] + (if marked then [Leaf(ts[p + 1])] else [])
                                        + [Node(t.node), Leaf(ts[t.next])]), t.next + 1, t.errors)
    ensures ts[t.next].kind != RBracket ==> ParseSequenceType(ts, p).errors != []
    ensures t.errors != [] ==> ParseSequenceType(ts, p).errors != []
  {
    hide ParseType, ParseBp;
    var head := [Leaf(ts[p])] + (if marked then [Leaf(ts[p + 1])] else []);
    assert head + [Node(t.node)] + [Leaf(ts[t.next])] == head + [Node(t.node), Leaf(ts[t.next])];
  }

  lemma SizedStep(ts: seq<Token>, p: nat, marked: bool, t: Parsed, length: Parsed)
    requires Stream(ts) && p + 1 < |ts| && ts[p].kind == LBracket && marked == (ts[p + 1].kind == Word(Var))
    requires ParseType(ts, p + if marked then 2 else 1) == t && ts[t.next].kind == Semicolon
    requires ParseBp(ts, t.next + 1, 0) == length
    ensures !marked && ts[length.next].kind == RBracket ==>
              ParseSequenceType(ts, p) ==
                Parsed(SyntaxNode(Type, [Leaf(ts[p]), Node(t.node), Leaf(ts[t.next]), Node(length.node),
                                         Leaf(ts[length.next])]),
                       length.next + 1, t.errors + length.errors)
    ensures marked || t.errors != [] || length.errors != [] || ts[length.next].kind != RBracket ==>
              ParseSequenceType(ts, p).errors != []
  {
    hide ParseType, ParseBp;
  }

  lemma PathTailStep(ts: seq<Token>, p: nat)
    requires Stream(ts) && p < |ts|
    ensures ts[p].kind != Dot ==> PathTail(ts, p) == Listed([], p, [])
    ensures ts[p].kind == Dot && ts[p + 1].kind == Identifier ==>
              var rest := PathTail(ts, p + 2);
              PathTail(ts, p) == Listed([Leaf(ts[p]), Leaf(ts[p + 1])] + rest.items, rest.next, rest.errors)
  {
    if ts[p].kind == Dot && ts[p + 1].kind == Identifier {
      var rest := PathTail(ts, p + 2);
      assert [Leaf(ts[p])] + [Leaf(ts[p + 1])] + rest.items == [Leaf(ts[p]), Leaf(ts[p + 1])] + rest.items;
      assert [] + rest.errors == rest.errors;
    }
  }
}
