/** The tree of an expression or a type holds every token consumed, once and in order, whether or
    not the tokens are well formed.
 */
module PrattLossless {
  import opened Pratt
  import opened PrattSteps
  import opened Syntax
  import opened Wrappers

  /** `s` is what stands from `p` up to `q`. */
  ghost predicate Covers(ts: seq<Token>, p: nat, q: nat, s: seq<Token>) {
    p <= q <= |ts| && s == ts[p..q]
  }

  lemma CoversJoin(ts: seq<Token>, p: nat, q: nat, r: nat, a: seq<Token>, b: seq<Token>)
    requires Covers(ts, p, q, a) && Covers(ts, q, r, b)
    ensures Covers(ts, p, r, a + b)
  {
  }

  lemma CoversLeaf(ts: seq<Token>, p: nat)
    requires p < |ts|
    ensures Covers(ts, p, p + 1, Flat([Leaf(ts[p])]))
  {
    FlatOne(Leaf(ts[p]));
  }

  lemma CoversNode(ts: seq<Token>, p: nat, q: nat, n: SyntaxNode)
    requires Covers(ts, p, q, Leaves(n))
    ensures Covers(ts, p, q, Flat([Node(n)]))
  {
    FlatOne(Node(n));
  }

  lemma CoversMade(ts: seq<Token>, p: nat, q: nat, kind: NodeKind, cs: seq<Element>)
    requires Covers(ts, p, q, Flat(cs))
    ensures Covers(ts, p, q, Leaves(SyntaxNode(kind, cs)))
  {
  }

  lemma CoversAppend(ts: seq<Token>, p: nat, q: nat, r: nat, a: seq<Element>, b: seq<Element>)
    requires Covers(ts, p, q, Flat(a)) && Covers(ts, q, r, Flat(b))
    ensures Covers(ts, p, r, Flat(a + b))
  {
    FlatAppend(a, b);
    CoversJoin(ts, p, q, r, Flat(a), Flat(b));
  }

  /** A node, a token and what follows. */
  lemma CoversNodeLeaf(ts: seq<Token>, p: nat, q: nat, r: nat, n: SyntaxNode, b: seq<Element>)
    requires Covers(ts, p, q, Leaves(n)) && q < |ts| && Covers(ts, q + 1, r, Flat(b))
    ensures Covers(ts, p, r, Flat([Node(n), Leaf(ts[q])] + b))
  {
    hide Covers, Flat, Leaves;
    CoversNode(ts, p, q, n);
    CoversLeaf(ts, q);
    CoversAppend(ts, p, q, q + 1, [Node(n)], [Leaf(ts[q])]);
    CoversAppend(ts, p, q + 1, r, [Node(n)] + [Leaf(ts[q])], b);
    assert [Node(n)] + [Leaf(ts[q])] + b == [Node(n), Leaf(ts[q])] + b;
  }

  /** A token, a node and what follows. */
  lemma CoversLeafNode(ts: seq<Token>, p: nat, q: nat, r: nat, n: SyntaxNode, b: seq<Element>)
    requires p < |ts| && Covers(ts, p + 1, q, Leaves(n)) && Covers(ts, q, r, Flat(b))
    ensures Covers(ts, p, r, Flat([Leaf(ts[p]), Node(n)] + b))
  {
    hide Covers, Flat, Leaves;
    CoversLeaf(ts, p);
    CoversNode(ts, p + 1, q, n);
    CoversAppend(ts, p + 1, q, r, [Node(n)], b);
    CoversAppend(ts, p, p + 1, r, [Leaf(ts[p])], [Node(n)] + b);
    assert [Leaf(ts[p])] + ([Node(n)] + b) == [Leaf(ts[p]), Node(n)] + b;
  }

  lemma CoversNone(ts: seq<Token>, p: nat)
    requires p <= |ts|
    ensures Covers(ts, p, p, Flat([]))
  {
  }

  lemma CoversExpect(ts: seq<Token>, p: nat, k: Kind)
    requires Stream(ts) && p < |ts| && k != Eof
    ensures Covers(ts, p, Expect(ts, p, k).next, Flat(Expect(ts, p, k).items))
    ensures Covers(ts, p, Eat(ts, p, k).next, Flat(Eat(ts, p, k).items))
  {
    CoversLeaf(ts, p);
    CoversNone(ts, p);
  }

  // ------------------------------------------------------------------ the parser

  /** Losslessness of expressions. */
  lemma {:induction false} BpLossless(ts: seq<Token>, p: nat, min: nat)
    requires Stream(ts) && p < |ts|
    ensures Covers(ts, p, ParseBp(ts, p, min).next, Leaves(ParseBp(ts, p, min).node))
    decreases |ts| - p, 4
  {
    hide Covers, Climb, ParsePrefix, Leaves;
    PrefixLossless(ts, p);
    ClimbLossless(ts, p, ParsePrefix(ts, p), min);
  }

  lemma {:induction false} ClimbLossless(ts: seq<Token>, p: nat, left: Parsed, min: nat)
    requires Stream(ts) && left.next < |ts| && Covers(ts, p, left.next, Leaves(left.node))
    ensures Covers(ts, p, Climb(ts, left, min).next, Leaves(Climb(ts, left, min).node))
    decreases |ts| - left.next, 2
  {
    hide Covers, Climb, ParseBp, ParsePostfix, ParseType, Leaves, ComparisonNode, Flat, BindingPower, PostfixStart;
    var (q, token) := (left.next, ts[left.next]);
    OperatorKind(token.kind);
    if PostfixStart(token.kind, left.node.kind) {
      PostfixStep(ts, left, min);
      PostfixLossless(ts, p, left);
      ClimbLossless(ts, p, ParsePostfix(ts, left), min);
    } else if token.kind == Word(As) && CAST_POWER >= min {
      var t := ParseType(ts, q + 1);
      CastStep(ts, left, t, min);
      TypeLossless(ts, q + 1);
      Join(ts, p, left, t, CastExpression);
      ClimbLossless(ts, p, Parsed(SyntaxNode(CastExpression, [Node(left.node), Leaf(token), Node(t.node)]),
                                  t.next, left.errors + t.errors), min);
    } else if BindingPower(token.kind).Some? && BindingPower(token.kind).value.left >= min {
      var power := BindingPower(token.kind).value;
      var right := ParseBp(ts, q + 1, power.right);
      BinaryStep(ts, left, right, min);
      BpLossless(ts, q + 1, power.right);
      Join(ts, p, left, right, BinaryExpression);
      var chained := power.comparison && (ComparisonNode(left.node) || ComparisonNode(right.node));
      ClimbLossless(ts, p, Parsed(SyntaxNode(BinaryExpression, [Node(left.node), Leaf(token), Node(right.node)]),
                                  right.next, left.errors + right.errors + if chained then [q] else []), min);
    } else {
      StopStep(ts, left, min);
    }
  }

  /** Two operands around a token. */
  lemma Join(ts: seq<Token>, p: nat, left: Parsed, right: Parsed, kind: NodeKind)
    requires left.next < |ts| && Covers(ts, p, left.next, Leaves(left.node))
    requires Covers(ts, left.next + 1, right.next, Leaves(right.node))
    ensures Covers(ts, p, right.next,
                   Leaves(SyntaxNode(kind, [Node(left.node), Leaf(ts[left.next]), Node(right.node)])))
  {
    hide Covers, Leaves, Flat;
    CoversNode(ts, left.next + 1, right.next, right.node);
    CoversNodeLeaf(ts, p, left.next, right.next, left.node, [Node(right.node)]);
    var cs := [Node(left.node), Leaf(ts[left.next]), Node(right.node)];
    assert [Node(left.node), Leaf(ts[left.next])] + [Node(right.node)] == cs;
    CoversMade(ts, p, right.next, kind, cs);
  }

  lemma {:induction false} PrefixLossless(ts: seq<Token>, p: nat)
    requires Stream(ts) && p < |ts|
    ensures Covers(ts, p, ParsePrefix(ts, p).next, Leaves(ParsePrefix(ts, p).node))
    decreases |ts| - p, 3
  {
    hide Covers, ParseBp, ParseItems, ParseParenthesized, Leaves, Flat;
    var token := ts[p];
    CoversLeaf(ts, p);
    if IsUnary(token.kind) {
      UnaryLossless(ts, p);
    } else if token.kind == LParen {
      ParenthesizedLossless(ts, p);
    } else if token.kind == LBracket {
      ItemsLossless(ts, p + 1, Exprs, RBracket);
      var items := ParseItems(ts, p + 1, Exprs, RBracket);
      CoversAppend(ts, p, p + 1, items.next, [Leaf(token)], items.items);
      CoversMade(ts, p, items.next, ArrayExpression, [Leaf(token)] + items.items);
    } else {
      CoversNone(ts, p);
      CoversMade(ts, p, p, Error, []);
      CoversMade(ts, p, p + 1, ParsePrefix(ts, p).node.kind, [Leaf(token)]);
    }
  }

  lemma {:induction false} UnaryLossless(ts: seq<Token>, p: nat)
    requires Stream(ts) && p < |ts| && IsUnary(ts[p].kind)
    ensures Covers(ts, p, ParsePrefix(ts, p).next, Leaves(ParsePrefix(ts, p).node))
    decreases |ts| - p, 2
  {
    hide Covers, ParseBp, ParseItems, ParseParenthesized, Leaves, Flat, Eat;
    var token := ts[p];
    var mark := if token.kind == Op(Amp) then Eat(ts, p + 1, Word(Var)) else Listed([], p + 1, []);
    var x := ParseBp(ts, mark.next, UNARY_POWER);
    CoversLeaf(ts, p);
    CoversExpect(ts, p + 1, Word(Var));
    CoversNone(ts, p + 1);
    BpLossless(ts, mark.next, UNARY_POWER);
    CoversNode(ts, mark.next, x.next, x.node);
    CoversAppend(ts, p, p + 1, mark.next, [Leaf(token)], mark.items);
    CoversAppend(ts, p, mark.next, x.next, [Leaf(token)] + mark.items, [Node(x.node)]);
    CoversMade(ts, p, x.next, UnaryExpression, [Leaf(token)] + mark.items + [Node(x.node)]);
  }

  lemma {:induction false} ParenthesizedLossless(ts: seq<Token>, p: nat)
    requires Stream(ts) && p < |ts| && ts[p].kind == LParen
    ensures Covers(ts, p, ParseParenthesized(ts, p).next, Leaves(ParseParenthesized(ts, p).node))
    decreases |ts| - p, 2
  {
    hide Covers, ParseBp, ParseMore, Leaves, Flat;
    if ts[p + 1].kind == RParen {
      PairLossless(ts, p, TupleExpression);
    } else {
      var first := ParseBp(ts, p + 1, 0);
      var rest := ParseMore(ts, first.next, Exprs, RParen, true);
      BpLossless(ts, p + 1, 0);
      MoreLossless(ts, first.next, Exprs, RParen, true);
      CoversLeafNode(ts, p, first.next, rest.next, first.node, rest.items);
      CoversMade(ts, p, rest.next, ParseParenthesized(ts, p).node.kind, [Leaf(ts[p]), Node(first.node)] + rest.items);
    }
  }

  lemma PairLossless(ts: seq<Token>, p: nat, kind: NodeKind)
    requires p + 1 < |ts|
    ensures Covers(ts, p, p + 2, Flat([Leaf(ts[p]), Leaf(ts[p + 1])]))
    ensures Covers(ts, p, p + 2, Leaves(SyntaxNode(kind, [Leaf(ts[p]), Leaf(ts[p + 1])])))
  {
    hide Covers, Flat;
    CoversLeaf(ts, p);
    CoversLeaf(ts, p + 1);
    CoversAppend(ts, p, p + 1, p + 2, [Leaf(ts[p])], [Leaf(ts[p + 1])]);
    assert [Leaf(ts[p])] + [Leaf(ts[p + 1])] == [Leaf(ts[p]), Leaf(ts[p + 1])];
  }

  lemma {:induction false} PostfixLossless(ts: seq<Token>, p: nat, left: Parsed)
    requires Stream(ts) && left.next < |ts| && PostfixStart(ts[left.next].kind, left.node.kind)
    requires Covers(ts, p, left.next, Leaves(left.node))
    ensures Covers(ts, p, ParsePostfix(ts, left).next, Leaves(ParsePostfix(ts, left).node))
    decreases |ts| - left.next, 1
  {
    hide Covers, ParseItems, ParseArguments, Leaves, Flat, Expect;
    var (q, k) := (left.next + 1, ts[left.next].kind);
    CoversExpect(ts, q, Integer);
    CoversExpect(ts, q, Identifier);
    CoversNone(ts, q);
    if k == LParen {
      ItemsLossless(ts, q, Exprs, RParen);
    } else if k == LBracket {
      ArgumentsLossless(ts, q);
    } else if k == LBrace {
      ItemsLossless(ts, q, Fields, RBrace);
    }
    var tail :=
      if k == Dot then (if ts[q].kind == Integer then Expect(ts, q, Integer) else Expect(ts, q, Identifier))
      else if k == LParen then ParseItems(ts, q, Exprs, RParen)
      else if k == LBracket then ParseArguments(ts, q)
      else if k == Question then Listed([], q, [])
      else ParseItems(ts, q, Fields, RBrace);
    CoversNodeLeaf(ts, p, left.next, tail.next, left.node, tail.items);
    CoversMade(ts, p, tail.next, ParsePostfix(ts, left).node.kind, [Node(left.node), Leaf(ts[left.next])] + tail.items);
  }

  lemma {:induction false} ArgumentsLossless(ts: seq<Token>, p: nat)
    requires Stream(ts) && p < |ts|
    ensures Covers(ts, p, ParseArguments(ts, p).next, Flat(ParseArguments(ts, p).items))
    decreases |ts| - p, 7
  {
    hide Covers, ParseBp, ParseMore, Leaves, Flat;
    if ts[p].kind == RBracket {
      CoversLeaf(ts, p);
    } else {
      var first := ParseBp(ts, p, 0);
      var rest := ParseMore(ts, first.next, Exprs, RBracket, false);
      BpLossless(ts, p, 0);
      MoreLossless(ts, first.next, Exprs, RBracket, false);
      CoversNode(ts, p, first.next, first.node);
      CoversAppend(ts, p, first.next, rest.next, [Node(first.node)], rest.items);
    }
  }

  lemma {:induction false} EntryLossless(ts: seq<Token>, p: nat, rule: Rule)
    requires Stream(ts) && p < |ts|
    ensures Covers(ts, p, ParseEntry(ts, p, rule).next, Leaves(ParseEntry(ts, p, rule).node))
    decreases |ts| - p, 5
  {
    hide Covers, ParseBp, ParseType, Leaves, Flat, Expect;
    match rule
    case Exprs => BpLossless(ts, p, 0);
    case Types => TypeLossless(ts, p);
    case Fields =>
      var name := Expect(ts, p, Identifier);
      CoversExpect(ts, p, Identifier);
      if ts[name.next].kind == Colon {
        var x := ParseBp(ts, name.next + 1, 0);
        BpLossless(ts, name.next + 1, 0);
        CoversNone(ts, x.next);
        CoversLeafNode(ts, name.next, x.next, x.next, x.node, []);
        assert [Leaf(ts[name.next]), Node(x.node)] + [] == [Leaf(ts[name.next]), Node(x.node)];
        CoversAppend(ts, p, name.next, x.next, name.items, [Leaf(ts[name.next]), Node(x.node)]);
        CoversMade(ts, p, x.next, RecordField, name.items + [Leaf(ts[name.next]), Node(x.node)]);
      } else {
        CoversMade(ts, p, name.next, RecordField, name.items);
      }
  }

  lemma {:induction false} ItemsLossless(ts: seq<Token>, p: nat, rule: Rule, close: Kind)
    requires Stream(ts) && p < |ts| && close != Eof
    ensures Covers(ts, p, ParseItems(ts, p, rule, close).next, Flat(ParseItems(ts, p, rule, close).items))
    decreases |ts| - p, 6
  {
    hide Covers, ParseEntry, Leaves, Flat, Expect;
    CoversExpect(ts, p, close);
    if ts[p].kind != Eof && ts[p].kind != close {
      var x := ParseEntry(ts, p, rule);
      EntryLossless(ts, p, rule);
      if ts[x.next].kind == Comma {
        var rest := ParseItems(ts, x.next + 1, rule, close);
        ItemsLossless(ts, x.next + 1, rule, close);
        CoversNodeLeaf(ts, p, x.next, rest.next, x.node, rest.items);
      } else {
        var end := Expect(ts, x.next, close);
        CoversExpect(ts, x.next, close);
        CoversNode(ts, p, x.next, x.node);
        CoversAppend(ts, p, x.next, end.next, [Node(x.node)], end.items);
      }
    }
  }

  lemma {:induction false} MoreLossless(ts: seq<Token>, p: nat, rule: Rule, close: Kind, trailing: bool)
    requires Stream(ts) && p < |ts| && close != Eof
    ensures var r := ParseMore(ts, p, rule, close, trailing);
            Covers(ts, p, r.next, Flat(r.items))
    decreases |ts| - p, 6
  {
    hide Covers, ParseEntry, Leaves, Flat, Expect;
    CoversExpect(ts, p, close);
    if ts[p].kind == Comma {
      PairLossless(ts, p, Error);
      if !(trailing && ts[p + 1].kind == close) {
        var x := ParseEntry(ts, p + 1, rule);
        var rest := ParseMore(ts, x.next, rule, close, trailing);
        EntryLossless(ts, p + 1, rule);
        MoreLossless(ts, x.next, rule, close, trailing);
        CoversLeafNode(ts, p, x.next, rest.next, x.node, rest.items);
      }
    }
  }

  /** Losslessness of types. */
  lemma {:induction false} TypeLossless(ts: seq<Token>, p: nat)
    requires Stream(ts) && p < |ts|
    ensures Covers(ts, p, ParseType(ts, p).next, Leaves(ParseType(ts, p).node))
    decreases |ts| - p, 4
  {
    hide Covers, ParseItems, ParseMore, ParseSequenceType, PathTail, Leaves, Flat, Eat;
    var token := ts[p];
    CoversLeaf(ts, p);
    CoversMade(ts, p, p + 1, Type, [Leaf(token)]);
    CoversNone(ts, p);
    CoversMade(ts, p, p, Type, []);
    if token.kind == Op(Amp) || token.kind == Op(Star) {
      ReferenceLossless(ts, p);
    } else if token.kind == LBracket {
      SequenceLossless(ts, p);
    } else if token.kind == LParen {
      PairLossless(ts, p, Type);
      if ts[p + 1].kind != RParen {
        var first := ParseType(ts, p + 1);
        var rest := ParseMore(ts, first.next, Types, RParen, true);
        TypeLossless(ts, p + 1);
        MoreLossless(ts, first.next, Types, RParen, true);
        CoversLeafNode(ts, p, first.next, rest.next, first.node, rest.items);
        CoversMade(ts, p, rest.next, Type, [Leaf(token), Node(first.node)] + rest.items);
      }
    } else if IsPath(token.kind) {
      PathLossless(ts, p);
    }
  }

  lemma {:induction false} ReferenceLossless(ts: seq<Token>, p: nat)
    requires Stream(ts) && p < |ts| && (ts[p].kind == Op(Amp) || ts[p].kind == Op(Star))
    ensures Covers(ts, p, ParseType(ts, p).next, Leaves(ParseType(ts, p).node))
    decreases |ts| - p, 3
  {
    hide Covers, ParseItems, ParseMore, ParseSequenceType, PathTail, Leaves, Flat, Eat;
    var token := ts[p];
    var mark := Eat(ts, p + 1, Word(Var));
    var foreign := Eat(ts, mark.next, Word(Unsafe));
    var t := ParseType(ts, foreign.next);
    CoversLeaf(ts, p);
    CoversExpect(ts, p + 1, Word(Var));
    CoversExpect(ts, mark.next, Word(Unsafe));
    TypeLossless(ts, foreign.next);
    CoversNode(ts, foreign.next, t.next, t.node);
    CoversAppend(ts, p, p + 1, mark.next, [Leaf(token)], mark.items);
    CoversAppend(ts, p, mark.next, foreign.next, [Leaf(token)] + mark.items, foreign.items);
    CoversAppend(ts, p, foreign.next, t.next, [Leaf(token)] + mark.items + foreign.items, [Node(t.node)]);
    CoversMade(ts, p, t.next, Type, [Leaf(token)] + mark.items + foreign.items + [Node(t.node)]);
  }

  lemma {:induction false} PathLossless(ts: seq<Token>, p: nat)
    requires Stream(ts) && p < |ts| && IsPath(ts[p].kind)
    ensures Covers(ts, p, ParseType(ts, p).next, Leaves(ParseType(ts, p).node))
    decreases |ts| - p, 3
  {
    hide Covers, ParseItems, ParseMore, ParseSequenceType, PathTail, Leaves, Flat;
    var path := PathTail(ts, p + 1);
    CoversLeaf(ts, p);
    PathTailLossless(ts, p + 1);
    CoversAppend(ts, p, p + 1, path.next, [Leaf(ts[p])], path.items);
    CoversMade(ts, p, path.next, Type, [Leaf(ts[p])] + path.items);
    if ts[path.next].kind == LBracket {
      var q := path.next;
      var items := ParseItems(ts, q + 1, Types, RBracket);
      var arguments := SyntaxNode(TypeArguments, [Leaf(ts[q])] + items.items);
      ItemsLossless(ts, q + 1, Types, RBracket);
      CoversLeaf(ts, q);
      CoversAppend(ts, q, q + 1, items.next, [Leaf(ts[q])], items.items);
      CoversMade(ts, q, items.next, TypeArguments, [Leaf(ts[q])] + items.items);
      CoversNode(ts, q, items.next, arguments);
      CoversAppend(ts, p, q, items.next, [Leaf(ts[p])] + path.items, [Node(arguments)]);
      CoversMade(ts, p, items.next, Type, [Leaf(ts[p])] + path.items + [Node(arguments)]);
    }
  }

  lemma {:induction false} SequenceLossless(ts: seq<Token>, p: nat)
    requires Stream(ts) && p < |ts| && ts[p].kind == LBracket
    ensures Covers(ts, p, ParseSequenceType(ts, p).next, Leaves(ParseSequenceType(ts, p).node))
    decreases |ts| - p, 3
  {
    hide Covers, ParseBp, ParseType, Leaves, Flat, Expect, Eat;
    var mark := Eat(ts, p + 1, Word(Var));
    var t := ParseType(ts, mark.next);
    var head := [Leaf(ts[p])] + mark.items + [Node(t.node)];
    CoversLeaf(ts, p);
    CoversExpect(ts, p + 1, Word(Var));
    TypeLossless(ts, mark.next);
    CoversNode(ts, mark.next, t.next, t.node);
    CoversAppend(ts, p, p + 1, mark.next, [Leaf(ts[p])], mark.items);
    CoversAppend(ts, p, mark.next, t.next, [Leaf(ts[p])] + mark.items, [Node(t.node)]);
    if ts[t.next].kind == Semicolon {
      var length := ParseBp(ts, t.next + 1, 0);
      var end := Expect(ts, length.next, RBracket);
      BpLossless(ts, t.next + 1, 0);
      CoversExpect(ts, length.next, RBracket);
      CoversLeafNode(ts, t.next, length.next, end.next, length.node, end.items);
      CoversAppend(ts, p, t.next, end.next, head, [Leaf(ts[t.next]), Node(length.node)] + end.items);
      assert head + ([Leaf(ts[t.next]), Node(length.node)] + end.items)
          == head + [Leaf(ts[t.next]), Node(length.node)] + end.items;
      CoversMade(ts, p, end.next, Type, head + [Leaf(ts[t.next]), Node(length.node)] + end.items);
    } else {
      var end := Expect(ts, t.next, RBracket);
      CoversExpect(ts, t.next, RBracket);
      CoversAppend(ts, p, t.next, end.next, head, end.items);
      CoversMade(ts, p, end.next, Type, head + end.items);
    }
  }

  lemma {:induction false} PathTailLossless(ts: seq<Token>, p: nat)
    requires Stream(ts) && p < |ts|
    ensures Covers(ts, p, PathTail(ts, p).next, Flat(PathTail(ts, p).items))
    decreases |ts| - p
  {
    hide Covers, Flat, Expect;
    CoversNone(ts, p);
    if ts[p].kind == Dot {
      var name := Expect(ts, p + 1, Identifier);
      var rest := PathTail(ts, name.next);
      CoversLeaf(ts, p);
      CoversExpect(ts, p + 1, Identifier);
      PathTailLossless(ts, name.next);
      CoversAppend(ts, p, p + 1, name.next, [Leaf(ts[p])], name.items);
      CoversAppend(ts, p, name.next, rest.next, [Leaf(ts[p])] + name.items, rest.items);
    }
  }
}
