/** The recovering parser (src/parser.rs).  Its expression and type methods are proved against the
    functions of `Pratt`, the others against those of `Statements`, and all are proved lossless, on
    every token stream.
 */
module Parser {
  import opened Extents
  import opened Pratt
  import opened PrattLossless
  import opened PrattSteps
  import opened StatementExact
  import opened StatementTrees
  import opened Statements
  import opened Syntax
  import opened Wrappers

  /** `goal` is `items`, then `rest`, with the errors after `errors` still to come. */
  ghost predicate Remaining(goal: Listed, items: seq<Element>, errors: seq<nat>, rest: Listed) {
    goal.items == items + rest.items && goal.next == rest.next && goal.errors == errors + rest.errors
  }

  lemma RemainingStep(goal: Listed, items: seq<Element>, errors: seq<nat>, rest: Listed,
                      more: seq<Element>, found: seq<nat>, rest2: Listed)
    requires Remaining(goal, items, errors, rest)
    requires rest == Listed(more + rest2.items, rest2.next, found + rest2.errors)
    ensures Remaining(goal, items + more, errors + found, rest2)
  {
    assert items + (more + rest2.items) == (items + more) + rest2.items;
    assert errors + (found + rest2.errors) == (errors + found) + rest2.errors;
  }

  /** Where a node was opened, and what had been reported by then. */
  datatype Opening = Opening(start: nat, reported: seq<nat>)

  class Parser {
    const tokens: seq<Token>
    var position: nat
    var diagnostics: seq<nat>  // the token each diagnostic points at

    ghost predicate Valid()
      reads this
    {
      Stream(tokens) && position < |tokens|
    }

    /** `parsed` is what was just read: the cursor stands behind it and its errors were reported. */
    ghost predicate Did(reported: seq<nat>, n: SyntaxNode, parsed: Parsed)
      reads this
    {
      n == parsed.node && position == parsed.next && diagnostics == reported + parsed.errors
    }

    ghost predicate DidList(reported: seq<nat>, items: seq<Element>, listed: Listed)
      reads this
    {
      items == listed.items && position == listed.next && diagnostics == reported + listed.errors
    }

    constructor (tokens: seq<Token>)
      requires Stream(tokens)
      ensures this.tokens == tokens && position == 0 && diagnostics == [] && Valid()
    {
      this.tokens := tokens;
      position := 0;
      diagnostics := [];
    }

    predicate At(k: Kind)
      requires Valid()
      reads this
    {
      tokens[position].kind == k
    }

    method Bump() returns (e: Element)
      requires Valid() && !At(Eof)
      modifies this`position
      ensures Valid() && position == old(position) + 1 && e == Leaf(tokens[old(position)])
    {
      e := Leaf(tokens[position]);
      position := position + 1;
    }

    method ErrorHere()
      requires Valid()
      modifies this`diagnostics
      ensures diagnostics == old(diagnostics) + [position]
    {
      diagnostics := diagnostics + [position];
    }

    method ExpectToken(k: Kind) returns (items: seq<Element>)
      requires Valid() && k != Eof
      modifies this`position, this`diagnostics
      ensures Valid() && DidList(old(diagnostics), items, Expect(tokens, old(position), k))
    {
      items := [];
      if At(k) {
        var e := Bump();
        items := [e];
      } else {
        ErrorHere();
      }
    }

    method EatToken(k: Kind) returns (items: seq<Element>)
      requires Valid() && k != Eof
      modifies this`position
      ensures Valid() && DidList(old(diagnostics), items, Eat(tokens, old(position), k))
    {
      items := [];
      if At(k) {
        var e := Bump();
        items := [e];
      }
    }

    // ---------------------------------------------------------------- expressions

    method ParseExpression() returns (n: SyntaxNode)
      requires Valid()
      modifies this`position, this`diagnostics
      ensures Valid() && Did(old(diagnostics), n, ParseBp(tokens, old(position), 0))
      decreases |tokens| - position, 5
    {
      n := ParseExpressionBp(0);
    }

    method ParseExpressionBp(min: nat) returns (n: SyntaxNode)
      requires Valid()
      modifies this`position, this`diagnostics
      ensures Valid() && Did(old(diagnostics), n, ParseBp(tokens, old(position), min))
      decreases |tokens| - position, 4
    {
      hide Climb, ParsePrefix, ParsePostfix, ParseType, BindingPower, PostfixStart, ComparisonNode;
      ghost var goal := ParseBp(tokens, position, min);
      ghost var errors := ParsePrefix(tokens, position).errors;
      n := ParsePrefixExpression();
      while true
        invariant Valid() && old(position) <= position && diagnostics == old(diagnostics) + errors
        invariant Climb(tokens, Parsed(n, position, errors), min) == goal
        decreases |tokens| - position
      {
        ghost var left := Parsed(n, position, errors);
        var token := tokens[position];
        OperatorKind(token.kind);
        if PostfixStart(token.kind, n.kind) {
          PostfixStep(tokens, left, min);
          n := ParsePostfixForm(n, errors);
          errors := ParsePostfix(tokens, left).errors;
        } else {
          var power := if token.kind == Word(As) then Some(Power(CAST_POWER, 0, false)) else BindingPower(token.kind);
          if power.None? || power.value.left < min {
            StopStep(tokens, left, min);
            break;
          }
          ghost var found;
          if token.kind == Word(As) {
            n, found := ParseCast(n, min, errors);
          } else {
            n, found := ParseBinary(n, power.value, min, errors);
          }
          Joined(old(diagnostics), errors, found);
          errors := errors + found;
        }
      }
    }

    /** A cast of what stands to the left. */
    method ParseCast(left: SyntaxNode, ghost min: nat, ghost errors: seq<nat>)
      returns (n: SyntaxNode, ghost found: seq<nat>)
      requires Valid() && At(Word(As)) && min <= CAST_POWER
      modifies this`position, this`diagnostics
      ensures Valid() && old(position) < position && diagnostics == old(diagnostics) + found
      ensures Climb(tokens, Parsed(n, position, errors + found), min)
           == Climb(tokens, Parsed(left, old(position), errors), min)
      decreases |tokens| - position, 0
    {
      hide Climb, ParseType;
      CastStep(tokens, Parsed(left, position, errors), ParseType(tokens, position + 1), min);
      found := ParseType(tokens, position + 1).errors;
      var e := Bump();
      var target := ParseTypeNode();
      n := SyntaxNode(CastExpression, [Node(left), e, Node(target)]);
    }

    /** A binary operator and its right operand; a comparison of comparisons is reported. */
    method ParseBinary(left: SyntaxNode, power: Power, ghost min: nat, ghost errors: seq<nat>)
      returns (n: SyntaxNode, ghost found: seq<nat>)
      requires Valid() && !At(Eof) && BindingPower(tokens[position].kind) == Some(power) && min <= power.left
      modifies this`position, this`diagnostics
      ensures Valid() && old(position) < position && diagnostics == old(diagnostics) + found
      ensures Climb(tokens, Parsed(n, position, errors + found), min)
           == Climb(tokens, Parsed(left, old(position), errors), min)
      decreases |tokens| - position, 0
    {
      hide Climb, ParseBp, BindingPower, ComparisonNode;
      var q := position;
      ghost var operand := ParseBp(tokens, q + 1, power.right);
      BinaryStep(tokens, Parsed(left, q, errors), operand, min);
      var op := Bump();
      var right := ParseExpressionBp(power.right);
      var chained := power.comparison && (ComparisonNode(left) || ComparisonNode(right));
      if chained {
        diagnostics := diagnostics + [q];
      }
      found := operand.errors + if chained then [q] else [];
      assert errors + operand.errors + (if chained then [q] else []) == errors + found;
      n := SyntaxNode(BinaryExpression, [Node(left), op, Node(right)]);
    }

    method ParsePrefixExpression() returns (n: SyntaxNode)
      requires Valid()
      modifies this`position, this`diagnostics
      ensures Valid() && Did(old(diagnostics), n, ParsePrefix(tokens, old(position)))
      decreases |tokens| - position, 3
    {
      hide ParseBp, ParseParenthesized, ParseItems;
      var k := tokens[position].kind;
      if IsUnary(k) {
        var op := Bump();
        var mark: seq<Element> := [];
        if k == Op(Amp) {
          mark := EatToken(Word(Var));
        }
        var operand := ParseExpressionBp(UNARY_POWER);
        n := SyntaxNode(UnaryExpression, [op] + mark + [Node(operand)]);
      } else if IsLiteral(k) {
        var e := Bump();
        n := SyntaxNode(LiteralExpression, [e]);
      } else if k == LParen {
        n := ParseParenthesizedOrTuple();
      } else if k == LBracket {
        var open := Bump();
        var items := ParseList(Exprs, RBracket);
        n := SyntaxNode(ArrayExpression, [open] + items);
      } else if IsPath(k) {
        var e := Bump();
        n := SyntaxNode(NameExpression, [e]);
      } else {
        ErrorHere();
        if IsBoundary(k) {
          n := SyntaxNode(Error, []);
        } else {
          var e := Bump();
          n := SyntaxNode(Error, [e]);
        }
      }
    }

    method ParseParenthesizedOrTuple() returns (n: SyntaxNode)
      requires Valid() && At(LParen)
      modifies this`position, this`diagnostics
      ensures Valid() && Did(old(diagnostics), n, ParseParenthesized(tokens, old(position)))
      decreases |tokens| - position, 2
    {
      hide ParseBp, ParseMore;
      var open := Bump();
      if At(RParen) {
        var close := Bump();
        n := SyntaxNode(TupleExpression, [open, close]);
      } else {
        var first := ParseExpression();
        var tuple := At(Comma);
        var rest := ParseListRest(Exprs, RParen, true);
        n := SyntaxNode(if tuple then TupleExpression else ParenthesizedExpression, [open, Node(first)] + rest);
      }
    }

    method ParsePostfixForm(left: SyntaxNode, ghost errors: seq<nat>) returns (n: SyntaxNode)
      requires Valid() && PostfixStart(tokens[position].kind, left.kind)
      modifies this`position, this`diagnostics
      ensures Valid() && position == ParsePostfix(tokens, Parsed(left, old(position), errors)).next
      ensures n == ParsePostfix(tokens, Parsed(left, old(position), errors)).node
      ensures forall reported :: old(diagnostics) == reported + errors ==>
                diagnostics == reported + ParsePostfix(tokens, Parsed(left, old(position), errors)).errors
      decreases |tokens| - position, 1
    {
      hide ParsePostfix, TailKind, Tail;
      TailStep(tokens, Parsed(left, position, errors));
      var k := tokens[position].kind;
      var e := Bump();
      ghost var found := Tail(tokens, position, k).errors;
      var kind, items := ParseTail(k);
      n := SyntaxNode(kind, [Node(left), e] + items);
      forall reported | old(diagnostics) == reported + errors ensures diagnostics == reported + (errors + found) {
      }
    }

    /** What follows the token a postfix form begins with. */
    method ParseTail(k: Kind) returns (kind: NodeKind, items: seq<Element>)
      requires Valid()
      modifies this`position, this`diagnostics
      ensures Valid() && kind == TailKind(tokens, old(position), k)
      ensures DidList(old(diagnostics), items, Tail(tokens, old(position), k))
      decreases |tokens| - position, 9
    {
      hide ParseItems, ParseArguments, Expect;
      if k == Dot {
        if At(Integer) {
          items := ExpectToken(Integer);
          kind := TupleFieldExpression;
        } else {
          items := ExpectToken(Identifier);
          kind := MemberExpression;
        }
      } else if k == LParen {
        items := ParseList(Exprs, RParen);
        kind := CallExpression;
      } else if k == LBracket {
        items := ParseBracketArguments();
        kind := BracketExpression;
      } else if k == Question {
        kind, items := TryExpression, [];
      } else {
        items := ParseList(Fields, RBrace);
        kind := RecordExpression;
      }
    }

    method ParseBracketArguments() returns (items: seq<Element>)
      requires Valid()
      modifies this`position, this`diagnostics
      ensures Valid() && DidList(old(diagnostics), items, ParseArguments(tokens, old(position)))
      decreases |tokens| - position, 8
    {
      hide ParseBp, ParseMore;
      if At(RBracket) {
        var close := Bump();
        items := [close];
      } else {
        var first := ParseExpression();
        var rest := ParseListRest(Exprs, RBracket, false);
        items := [Node(first)] + rest;
      }
    }

    method ParseListEntry(rule: Rule) returns (n: SyntaxNode)
      requires Valid()
      modifies this`position, this`diagnostics
      ensures Valid() && Did(old(diagnostics), n, ParseEntry(tokens, old(position), rule))
      decreases |tokens| - position, 6
    {
      hide ParseBp, ParseType, Expect;
      match rule
      case Exprs => n := ParseExpression();
      case Types => n := ParseTypeNode();
      case Fields =>
        var children := ExpectToken(Identifier);
        if At(Colon) {
          var colon := Bump();
          var value := ParseExpression();
          children := children + [colon, Node(value)];
        }
        n := SyntaxNode(RecordField, children);
    }

    /** The loops over arguments, elements, record fields and type arguments. */
    method ParseList(rule: Rule, close: Kind) returns (items: seq<Element>)
      requires Valid() && Closer(close)
      modifies this`position, this`diagnostics
      ensures Valid() && DidList(old(diagnostics), items, ParseItems(tokens, old(position), rule, close))
      decreases |tokens| - position, 7
    {
      hide ParseItems, ParseEntry, Remaining, Expect;
      ghost var goal := ParseItems(tokens, position, rule, close);
      ghost var errors: seq<nat> := [];
      items := [];
      NothingDone(goal);
      while !At(Eof) && !At(close)
        invariant Valid() && old(position) <= position && diagnostics == old(diagnostics) + errors
        invariant Remaining(goal, items, errors, ParseItems(tokens, position, rule, close))
        decreases |tokens| - position
      {
        ghost var x := ParseEntry(tokens, position, rule);
        ListEntry(tokens, position, rule, close, goal, items, errors);
        var n := ParseListEntry(rule);
        Joined(old(diagnostics), errors, x.errors);
        errors := errors + x.errors;
        if !At(Comma) {
          Joined(old(diagnostics), errors, Expect(tokens, position, close).errors);
          var last := ExpectToken(close);
          items := items + [Node(n)] + last;
          return;
        }
        var comma := Bump();
        items := items + [Node(n), comma];
      }
      ListEnd(tokens, position, rule, close, goal, items, errors);
      Joined(old(diagnostics), errors, Expect(tokens, position, close).errors);
      var last := ExpectToken(close);
      items := items + last;
    }

    /** What an entry adds to a list. */
    static lemma ListEntry(ts: seq<Token>, p: nat, rule: Rule, close: Kind, goal: Listed, items: seq<Element>,
                           errors: seq<nat>)
      requires Stream(ts) && p < |ts| && Closer(close) && ts[p].kind != Eof && ts[p].kind != close
      requires Remaining(goal, items, errors, ParseItems(ts, p, rule, close))
      ensures var x := ParseEntry(ts, p, rule);
              if ts[x.next].kind == Comma then
                Remaining(goal, items + [Node(x.node), Leaf(ts[x.next])], errors + x.errors,
                          ParseItems(ts, x.next + 1, rule, close))
              else
                var end := Expect(ts, x.next, close);
                goal == Listed(items + [Node(x.node)] + end.items, end.next, errors + x.errors + end.errors)
    {
      hide ParseEntry, ParseItems, Remaining;
      var x := ParseEntry(ts, p, rule);
      var whole := ParseItems(ts, p, rule, close);
      ItemsStep(ts, p, rule, close, x);
      if ts[x.next].kind == Comma {
        RemainingStep(goal, items, errors, whole, [Node(x.node), Leaf(ts[x.next])], x.errors,
                      ParseItems(ts, x.next + 1, rule, close));
      } else {
        var end := Expect(ts, x.next, close);
        RemainingStep(goal, items, errors, whole, [Node(x.node)], x.errors, end);
        RemainingAll(goal, items + [Node(x.node)], errors + x.errors, end);
      }
    }

    static lemma ListEnd(ts: seq<Token>, p: nat, rule: Rule, close: Kind, goal: Listed, items: seq<Element>,
                         errors: seq<nat>)
      requires Stream(ts) && p < |ts| && Closer(close) && (ts[p].kind == Eof || ts[p].kind == close)
      requires Remaining(goal, items, errors, ParseItems(ts, p, rule, close))
      ensures var end := Expect(ts, p, close); goal == Listed(items + end.items, end.next, errors + end.errors)
    {
      hide ParseEntry;
    }

    static lemma RemainingAll(goal: Listed, items: seq<Element>, errors: seq<nat>, rest: Listed)
      requires Remaining(goal, items, errors, rest)
      ensures goal == Listed(items + rest.items, rest.next, errors + rest.errors)
    {
    }

    static lemma Joined(a: seq<nat>, b: seq<nat>, c: seq<nat>)
      ensures (a + b) + c == a + (b + c)
    {
    }

    static lemma NothingDone(goal: Listed)
      ensures Remaining(goal, [], [], goal)
    {
    }

    /** The loops that look for a comma after each element. */
    method ParseListRest(rule: Rule, close: Kind, trailing: bool) returns (items: seq<Element>)
      requires Valid() && Closer(close)
      modifies this`position, this`diagnostics
      ensures Valid() && DidList(old(diagnostics), items, ParseMore(tokens, old(position), rule, close, trailing))
      decreases |tokens| - position, 7
    {
      hide ParseMore, ParseEntry, Remaining, Expect;
      ghost var goal := ParseMore(tokens, position, rule, close, trailing);
      ghost var errors: seq<nat> := [];
      items := [];
      NothingDone(goal);
      while At(Comma)
        invariant Valid() && old(position) <= position && diagnostics == old(diagnostics) + errors
        invariant Remaining(goal, items, errors, ParseMore(tokens, position, rule, close, trailing))
        decreases |tokens| - position
      {
        ghost var x := ParseEntry(tokens, position + 1, rule);
        RestEntry(tokens, position, rule, close, trailing, goal, items, errors);
        var comma := Bump();
        if trailing && At(close) {
          var last := Bump();
          items := items + [comma, last];
          return;
        }
        var n := ParseListEntry(rule);
        Joined(old(diagnostics), errors, x.errors);
        errors := errors + x.errors;
        items := items + [comma, Node(n)];
      }
      RestEnd(tokens, position, rule, close, trailing, goal, items, errors);
      Joined(old(diagnostics), errors, Expect(tokens, position, close).errors);
      var last := ExpectToken(close);
      items := items + last;
    }

    /** What a comma and an entry add to a list. */
    static lemma RestEntry(ts: seq<Token>, p: nat, rule: Rule, close: Kind, trailing: bool,
                           goal: Listed, items: seq<Element>, errors: seq<nat>)
      requires Stream(ts) && p < |ts| && Closer(close) && ts[p].kind == Comma
      requires Remaining(goal, items, errors, ParseMore(ts, p, rule, close, trailing))
      ensures if trailing && ts[p + 1].kind == close then
                goal == Listed(items + [Leaf(ts[p]), Leaf(ts[p + 1])], p + 2, errors)
              else
                var x := ParseEntry(ts, p + 1, rule);
                Remaining(goal, items + [Leaf(ts[p]), Node(x.node)], errors + x.errors,
                          ParseMore(ts, x.next, rule, close, trailing))
    {
      hide ParseEntry, ParseMore, Remaining;
      var whole := ParseMore(ts, p, rule, close, trailing);
      if trailing && ts[p + 1].kind == close {
        MoreEnd(ts, p, rule, close, trailing);
        RemainingAll(goal, items, errors, whole);
        assert errors + [] == errors;
      } else {
        var x := ParseEntry(ts, p + 1, rule);
        MoreStep(ts, p, rule, close, trailing, x);
        RemainingStep(goal, items, errors, whole, [Leaf(ts[p]), Node(x.node)], x.errors,
                      ParseMore(ts, x.next, rule, close, trailing));
      }
    }

    static lemma RestEnd(ts: seq<Token>, p: nat, rule: Rule, close: Kind, trailing: bool,
                         goal: Listed, items: seq<Element>, errors: seq<nat>)
      requires Stream(ts) && p < |ts| && Closer(close) && ts[p].kind != Comma
      requires Remaining(goal, items, errors, ParseMore(ts, p, rule, close, trailing))
      ensures var end := Expect(ts, p, close); goal == Listed(items + end.items, end.next, errors + end.errors)
    {
      hide ParseEntry;
    }

    // ---------------------------------------------------------------- types

    method ParseTypeNode() returns (n: SyntaxNode)
      requires Valid()
      modifies this`position, this`diagnostics
      ensures Valid() && Did(old(diagnostics), n, ParseType(tokens, old(position)))
      decreases |tokens| - position, 4
    {
      var k := tokens[position].kind;
      if k == Op(Bang) {
        var e := Bump();
        n := SyntaxNode(Type, [e]);
      } else if k == Op(Amp) || k == Op(Star) {
        var op := Bump();
        var mark := EatToken(Word(Var));
        var foreign := EatToken(Word(Unsafe));
        var target := ParseTypeNode();
        n := SyntaxNode(Type, [op] + mark + foreign + [Node(target)]);
      } else if k == Word(Unsafe) {
        var e := Bump();
        ErrorHere();
        n := SyntaxNode(Type, [e]);
      } else if k == LBracket {
        n := ParseSequence();
      } else if k == LParen {
        n := ParseTupleType();
      } else if IsPath(k) {
        n := ParsePathType();
      } else {
        ErrorHere();
        if IsTypeBoundary(k) {
          n := SyntaxNode(Type, []);
        } else {
          var e := Bump();
          n := SyntaxNode(Type, [e]);
        }
      }
    }

    method ParseTupleType() returns (n: SyntaxNode)
      requires Valid() && At(LParen)
      modifies this`position, this`diagnostics
      ensures Valid() && Did(old(diagnostics), n, ParseType(tokens, old(position)))
      decreases |tokens| - position, 3
    {
      hide ParseType, ParseMore;
      TypeAtomStep(tokens, position);
      if tokens[position + 1].kind != RParen {
        TupleTypeStep(tokens, position, ParseType(tokens, position + 1));
      }
      var open := Bump();
      if At(RParen) {
        var close := Bump();
        n := SyntaxNode(Type, [open, close]);
      } else {
        var first := ParseTypeNode();
        var rest := ParseListRest(Types, RParen, true);
        n := SyntaxNode(Type, [open, Node(first)] + rest);
      }
    }

    method ParseSequence() returns (n: SyntaxNode)
      requires Valid() && At(LBracket)
      modifies this`position, this`diagnostics
      ensures Valid() && Did(old(diagnostics), n, ParseSequenceType(tokens, old(position)))
      decreases |tokens| - position, 3
    {
      hide ParseBp, ParseType, Expect, Eat;
      var start := position;
      var head, marked := ParseSequenceHead();
      n := ParseSequenceEnd(head, if marked then [start] else []);
    }

    /** The bracket, `var` if it is there, and the element type. */
    method ParseSequenceHead() returns (head: seq<Element>, marked: bool)
      requires Valid() && At(LBracket)
      modifies this`position, this`diagnostics
      ensures Valid()
      ensures var mark := Eat(tokens, old(position) + 1, Word(Var));
              var t := ParseType(tokens, mark.next);
              && head == [Leaf(tokens[old(position)])] + mark.items + [Node(t.node)] && marked == (mark.items != [])
              && position == t.next && diagnostics == old(diagnostics) + t.errors
      decreases |tokens| - position, 2
    {
      hide ParseType;
      var open := Bump();
      var mark := EatToken(Word(Var));
      var element := ParseTypeNode();
      head, marked := [open] + mark + [Node(element)], mark != [];
    }

    /** The length of an array type, refused at `refused` if the element is marked, and the bracket. */
    method ParseSequenceEnd(head: seq<Element>, refused: seq<nat>) returns (n: SyntaxNode)
      requires Valid()
      modifies this`position, this`diagnostics
      ensures Valid()
      ensures tokens[old(position)].kind != Semicolon ==>
                var end := Expect(tokens, old(position), RBracket);
                Did(old(diagnostics), n, Parsed(SyntaxNode(Type, head + end.items), end.next, end.errors))
      ensures tokens[old(position)].kind == Semicolon ==>
                var length := ParseBp(tokens, old(position) + 1, 0);
                var end := Expect(tokens, length.next, RBracket);
                Did(old(diagnostics), n,
                    Parsed(SyntaxNode(Type, head + [Leaf(tokens[old(position)]), Node(length.node)] + end.items),
                           end.next, refused + length.errors + end.errors))
      decreases |tokens| - position, 3
    {
      hide ParseBp, Expect;
      var children := head;
      if At(Semicolon) {
        diagnostics := diagnostics + refused;
        var semicolon := Bump();
        var length := ParseExpression();
        children := children + [semicolon, Node(length)];
      }
      var close := ExpectToken(RBracket);
      n := SyntaxNode(Type, children + close);
    }

    method ParsePathType() returns (n: SyntaxNode)
      requires Valid() && IsPath(tokens[position].kind)
      modifies this`position, this`diagnostics
      ensures Valid() && Did(old(diagnostics), n, ParseType(tokens, old(position)))
      decreases |tokens| - position, 3
    {
      hide ParseType, ParseItems, PathTail;
      PathStep(tokens, position, PathTail(tokens, position + 1));
      var first := Bump();
      var path := ParseDotted();
      var children := [first] + path;
      if At(LBracket) {
        var open := Bump();
        var items := ParseList(Types, RBracket);
        children := children + [Node(SyntaxNode(TypeArguments, [open] + items))];
      }
      n := SyntaxNode(Type, children);
    }

    /** The loop over the dots of a path. */
    method ParseDotted() returns (items: seq<Element>)
      requires Valid()
      modifies this`position, this`diagnostics
      ensures Valid() && DidList(old(diagnostics), items, PathTail(tokens, old(position)))
    {
      hide Remaining;
      ghost var goal := PathTail(tokens, position);
      ghost var errors: seq<nat> := [];
      items := [];
      NothingDone(goal);
      while At(Dot)
        invariant Valid() && old(position) <= position && diagnostics == old(diagnostics) + errors
        invariant Remaining(goal, items, errors, PathTail(tokens, position))
        decreases |tokens| - position
      {
        ghost var whole := PathTail(tokens, position);
        ghost var name := Expect(tokens, position + 1, Identifier);
        var dot := Bump();
        var next := ExpectToken(Identifier);
        RemainingStep(goal, items, errors, whole, [dot] + next, name.errors, PathTail(tokens, position));
        errors := errors + name.errors;
        items := items + ([dot] + next);
      }
      RemainingAll(goal, items, errors, Listed([], position, []));
    }

    // ---------------------------------------------------------------- open nodes

    ghost function Here(): Opening
      reads this
    {
      Opening(position, diagnostics)
    }

    /** `children` hold exactly the tokens read from the opening of a node to `at`. */
    ghost predicate OpenAt(o: Opening, at: Opening, children: seq<Element>) {
      o.start <= at.start && Holds(o, at, Flat(children))
    }

    ghost predicate Holds(o: Opening, at: Opening, leaves: seq<Token>) {
      o.reported <= at.reported && Covers(tokens, o.start, at.start, leaves)
    }

    ghost predicate Open(o: Opening, children: seq<Element>)
      reads this
    {
      OpenAt(o, Here(), children)
    }

    /** The open node as `Statements` sees it. */
    ghost function AccAt(o: Opening, at: Opening, children: seq<Element>): Listed {
      Listed(children, at.start, Since(o, at))
    }

    /** What was reported from `o` to `at`. */
    ghost function Since(o: Opening, at: Opening): seq<nat> {
      if |o.reported| <= |at.reported| then at.reported[|o.reported|..] else []
    }

    ghost function Acc(o: Opening, children: seq<Element>): Listed
      reads this
    {
      AccAt(o, Here(), children)
    }

    /** A node read since `o`, as the specification says, and holding exactly the tokens read. */
    ghost predicate Built(o: Opening, n: SyntaxNode, parsed: Parsed)
      reads this
    {
      o.start <= position == parsed.next && Tree(o, Here(), n, parsed)
    }

    ghost predicate Tree(o: Opening, at: Opening, n: SyntaxNode, parsed: Parsed) {
      n == parsed.node && at.reported == o.reported + parsed.errors && Covers(tokens, o.start, at.start, Leaves(n))
    }

    /** An open node with no children yet. */
    lemma Opens()
      requires Valid()
      ensures Open(Here(), []) && Acc(Here(), []) == Start(position)
    {
      CoversNone(tokens, position);
    }

    method Take(children: seq<Element>, ghost o: Opening) returns (out: seq<Element>)
      requires Valid() && !At(Eof) && Open(o, children)
      modifies this`position
      ensures Valid() && Open(o, out) && Acc(o, out) == Taken(tokens, old(Acc(o, children)))
    {
      hide Covers, Flat;
      CoversLeaf(tokens, position);
      CoversAppend(tokens, o.start, position, position + 1, children, [Leaf(tokens[position])]);
      var e := Bump();
      out := children + [e];
    }

    method Want(k: Kind, children: seq<Element>, ghost o: Opening) returns (out: seq<Element>)
      requires Valid() && k != Eof && Open(o, children)
      modifies this`position, this`diagnostics
      ensures Valid() && Open(o, out) && Acc(o, out) == Wanted(tokens, old(Acc(o, children)), k)
    {
      hide Covers, Flat;
      out := children;
      if At(k) {
        out := Take(children, o);
      } else {
        ErrorHere();
      }
    }

    method Allow(k: Kind, children: seq<Element>, ghost o: Opening) returns (out: seq<Element>, ate: bool)
      requires Valid() && k != Eof && Open(o, children)
      modifies this`position
      ensures Valid() && Open(o, out) && ate == (tokens[old(position)].kind == k)
      ensures Acc(o, out) == Allowed(tokens, old(Acc(o, children)), k)
    {
      hide Covers, Flat;
      out, ate := children, At(k);
      if ate {
        out := Take(children, o);
      }
    }

    /** Reports at the current token, within an open node. */
    method Complain(children: seq<Element>, ghost o: Opening)
      requires Valid() && Open(o, children)
      modifies this`diagnostics
      ensures Valid() && Open(o, children) && Acc(o, children) == Faulted(old(Acc(o, children)))
    {
      hide Covers, Flat;
      ErrorHere();
    }

    /** Appends the node read since `at`. */
    method Add(children: seq<Element>, n: SyntaxNode, ghost o: Opening, ghost at: Opening, ghost x: Parsed)
      returns (out: seq<Element>)
      requires OpenAt(o, at, children) && Built(at, n, x)
      ensures Open(o, out) && Acc(o, out) == Nested(AccAt(o, at, children), x)
    {
      hide Covers, Flat, Leaves;
      CoversNode(tokens, at.start, position, n);
      CoversAppend(tokens, o.start, at.start, position, children, [Node(n)]);
      out := children + [Node(n)];
    }

    method Close(form: Form, children: seq<Element>, ghost o: Opening) returns (n: SyntaxNode)
      requires Open(o, children)
      ensures Built(o, n, Made(form, Acc(o, children)))
    {
      n := SyntaxNode(Outer(form), children);
    }

    method CloseError(children: seq<Element>, ghost o: Opening) returns (n: SyntaxNode)
      requires Open(o, children)
      ensures Built(o, n, MadeError(Acc(o, children)))
    {
      n := SyntaxNode(Error, children);
    }

    method AddExpression(children: seq<Element>, ghost o: Opening) returns (out: seq<Element>)
      requires Valid() && Open(o, children)
      modifies this`position, this`diagnostics
      ensures Valid() && Open(o, out) && Acc(o, out) == Exp(tokens, old(Acc(o, children)))
    {
      hide Covers, Flat, Leaves, ParseBp;
      ghost var at := Here();
      BpLossless(tokens, position, 0);
      var n := ParseExpression();
      out := Add(children, n, o, at, ParseBp(tokens, at.start, 0));
    }

    method AddType(children: seq<Element>, ghost o: Opening) returns (out: seq<Element>)
      requires Valid() && Open(o, children)
      modifies this`position, this`diagnostics
      ensures Valid() && Open(o, out) && Acc(o, out) == Typ(tokens, old(Acc(o, children)))
    {
      hide Covers, Flat, Leaves, ParseType;
      ghost var at := Here();
      TypeLossless(tokens, position);
      var n := ParseTypeNode();
      out := Add(children, n, o, at, ParseType(tokens, at.start));
    }

    method AddPath(children: seq<Element>, ghost o: Opening) returns (out: seq<Element>)
      requires Valid() && Open(o, children)
      modifies this`position, this`diagnostics
      ensures Valid() && Open(o, out) && Acc(o, out) == Pathed(tokens, old(Acc(o, children)))
    {
      hide Covers, Flat, PathTail;
      out := children;
      if IsPath(tokens[position].kind) {
        out := Take(children, o);
      } else {
        Complain(out, o);
      }
      ghost var from := position;
      PathTailLossless(tokens, position);
      var dotted := ParseDotted();
      CoversAppend(tokens, o.start, from, position, out, dotted);
      out := out + dotted;
    }

    // ---------------------------------------------------------------- lines

    method RecoverLine(children: seq<Element>, ghost o: Opening) returns (out: seq<Element>)
      requires Valid() && Open(o, children)
      modifies this`position
      ensures Valid() && Open(o, out) && Acc(o, out) == Recovered(tokens, old(Acc(o, children)))
    {
      hide Covers, Flat;
      out := children;
      while !At(Eof) && !At(Newline) && !At(Dedent)
        invariant Valid() && Open(o, out) && Recovered(tokens, Acc(o, out)) == Recovered(tokens, old(Acc(o, children)))
        decreases |tokens| - position
      {
        out := Take(out, o);
      }
      var ate;
      out, ate := Allow(Newline, out, o);
    }

    method ExpectLineEnd(children: seq<Element>, ghost o: Opening) returns (out: seq<Element>)
      requires Valid() && Open(o, children)
      modifies this`position, this`diagnostics
      ensures Valid() && Open(o, out) && Acc(o, out) == LineTail(tokens, old(Acc(o, children)))
    {
      hide Covers, Flat, Recovered;
      var ate;
      out, ate := Allow(Newline, children, o);
      if !ate && !At(Dedent) && !At(Eof) {
        Complain(out, o);
        out := RecoverLine(out, o);
      }
    }

    method EatNewlines(children: seq<Element>, ghost o: Opening) returns (out: seq<Element>)
      requires Valid() && Open(o, children)
      modifies this`position
      ensures Valid() && Open(o, out) && Acc(o, out) == Newlines(tokens, old(Acc(o, children)))
    {
      hide Covers, Flat;
      out := children;
      while At(Newline)
        invariant Valid() && Open(o, out) && Newlines(tokens, Acc(o, out)) == Newlines(tokens, old(Acc(o, children)))
        decreases |tokens| - position
      {
        out := Take(out, o);
      }
    }

    method ExpectBlockStart(children: seq<Element>, ghost o: Opening) returns (out: seq<Element>)
      requires Valid() && Open(o, children)
      modifies this`position, this`diagnostics
      ensures Valid() && Open(o, out) && Acc(o, out) == BlockStart(tokens, old(Acc(o, children)))
    {
      hide Wanted, Covers, Flat;
      out := Want(Colon, children, o);
      out := Want(Newline, out, o);
      out := Want(Indent, out, o);
    }

    // ---------------------------------------------------------------- patterns

    method ParsePattern() returns (n: SyntaxNode)
      requires Valid()
      modifies this`position, this`diagnostics
      ensures Valid() && Built(old(Here()), n, PatternOf(tokens, old(position)))
      decreases |tokens| - position, 2
    {
      hide Holds, Since, Tree, AtomOf, Taken;
      ghost var o := Here();
      Opens();
      var first := ParsePatternAtom();
      var children := Add([], first, o, o, AtomOf(tokens, o.start));
      var form := Pattern;
      while At(Op(Pipe))
        invariant Valid() && Open(o, children) && (form == Pattern || form == AlternativePattern)
        invariant Alternatives(tokens, Acc(o, children), form != Pattern) == PatternOf(tokens, o.start)
        decreases |tokens| - position
      {
        form := AlternativePattern;
        children := Take(children, o);
        ghost var at := Here();
        var next := ParsePatternAtom();
        children := Add(children, next, o, at, AtomOf(tokens, at.start));
      }
      n := Close(form, children, o);
    }

    method ParsePatternAtom() returns (n: SyntaxNode)
      requires Valid()
      modifies this`position, this`diagnostics
      ensures Valid() && Built(old(Here()), n, AtomOf(tokens, old(position)))
      decreases |tokens| - position, 1
    {
      hide Holds, Since, Tree, PatternList, PathPatternOf, Taken;
      ghost var o := Here();
      Opens();
      var k := tokens[position].kind;
      var children: seq<Element> := [];
      if k == Op(Star) {
        children := Take(children, o);
        ghost var at := Here();
        var inner := ParsePatternAtom();
        children := Add(children, inner, o, at, AtomOf(tokens, at.start));
        n := Close(DereferencePattern, children, o);
      } else if k == LParen {
        children := Take(children, o);
        children := ParsePatternList(children, RParen, o);
        n := Close(TuplePattern, children, o);
      } else if IsLiteral(k) {
        children := Take(children, o);
        n := Close(Pattern, children, o);
      } else if IsPath(k) {
        n := ParsePathPattern();
      } else {
        n := ParseNoPattern();
      }
    }

    /** What is no pattern, a token of it taken unless it ends something. */
    method ParseNoPattern() returns (n: SyntaxNode)
      requires Valid() && !IsPath(tokens[position].kind) && !IsLiteral(tokens[position].kind)
      requires tokens[position].kind != Op(Star) && tokens[position].kind != LParen
      modifies this`position, this`diagnostics
      ensures Valid() && Built(old(Here()), n, AtomOf(tokens, old(position)))
    {
      hide Holds, Since, Tree, Taken;
      ghost var o := Here();
      Opens();
      var k := tokens[position].kind;
      var children: seq<Element> := [];
      Complain(children, o);
      if !IsBoundary(k) {
        children := Take(children, o);
      }
      n := CloseError(children, o);
    }

    method ParsePathPattern() returns (n: SyntaxNode)
      requires Valid() && IsPath(tokens[position].kind)
      modifies this`position, this`diagnostics
      ensures Valid() && Built(old(Here()), n, PathPatternOf(tokens, old(position)))
      decreases |tokens| - position, 0
    {
      hide Holds, Since, Tree, PatternList, Pathed, Taken;
      ghost var o := Here();
      Opens();
      var children := AddPath([], o);
      var form := Pattern;
      if At(LParen) {
        children := Take(children, o);
        children := ParsePatternList(children, RParen, o);
        form := VariantPattern;
      } else if At(LBrace) {
        children := Take(children, o);
        children := ParsePatternList(children, RBrace, o);
        form := RecordPattern;
      }
      n := Close(form, children, o);
    }

    /** The loops over pattern elements, and over pattern fields when the list ends in a brace. */
    method ParsePatternList(children: seq<Element>, close: Kind, ghost o: Opening) returns (out: seq<Element>)
      requires Valid() && close != Eof && Open(o, children)
      modifies this`position, this`diagnostics
      ensures Valid() && Open(o, out) && Acc(o, out) == PatternList(tokens, old(Acc(o, children)), close)
      decreases |tokens| - position, 5
    {
      hide Holds, Since, Tree, PatternList, EntryOf, Taken, Wanted;
      out := children;
      var more := true;
      while more && !At(Eof) && !At(close)
        invariant Valid() && Open(o, out) && old(position) <= position
        invariant PatternList(tokens, old(Acc(o, children)), close)
               == if more then PatternList(tokens, Acc(o, out), close) else Wanted(tokens, Acc(o, out), close)
        decreases more, |tokens| - position
      {
        PatternListStep(tokens, Acc(o, out), close);
        ghost var at := Here();
        var entry := ParsePatternEntry(close);
        out := Add(out, entry, o, at, EntryOf(tokens, at.start, close));
        out, more := Allow(Comma, out, o);
      }
      PatternListStep(tokens, Acc(o, out), close);
      out := Want(close, out, o);
    }

    method ParsePatternEntry(close: Kind) returns (n: SyntaxNode)
      requires Valid()
      modifies this`position, this`diagnostics
      ensures Valid() && Built(old(Here()), n, EntryOf(tokens, old(position), close))
      decreases |tokens| - position, 4
    {
      if close == RBrace {
        n := ParsePatternField();
      } else {
        n := ParsePattern();
      }
    }

    method ParsePatternField() returns (n: SyntaxNode)
      requires Valid()
      modifies this`position, this`diagnostics
      ensures Valid() && Built(old(Here()), n, PatternFieldOf(tokens, old(position)))
      decreases |tokens| - position, 3
    {
      hide Holds, Since, Tree, PatternOf, Taken, Wanted;
      ghost var o := Here();
      Opens();
      var children: seq<Element> := [];
      if At(DotDot) {
        children := Take(children, o);
      } else {
        children := Want(Identifier, children, o);
        if At(Colon) {
          children := Take(children, o);
          ghost var at := Here();
          var inner := ParsePattern();
          children := Add(children, inner, o, at, PatternOf(tokens, at.start));
        }
      }
      n := Close(PatternField, children, o);
    }

    // ---------------------------------------------------------------- bindings

    /** A name, or a tuple of them in parentheses. */
    method AddBoundNames(children: seq<Element>, ghost o: Opening) returns (out: seq<Element>)
      requires Valid() && Open(o, children)
      modifies this`position, this`diagnostics
      ensures Valid() && Open(o, out) && Acc(o, out) == Named(tokens, old(Acc(o, children)))
      decreases |tokens| - position, 1
    {
      hide Holds, Since, Tree, BindingTupleOf, Wanted;
      if At(LParen) {
        ghost var at := Here();
        var tuple := ParseBindingTuple();
        out := Add(children, tuple, o, at, BindingTupleOf(tokens, at.start));
      } else {
        out := Want(Identifier, children, o);
      }
    }

    method ParseBindingTuple() returns (n: SyntaxNode)
      requires Valid() && !At(Eof)
      modifies this`position, this`diagnostics
      ensures Valid() && Built(old(Here()), n, BindingTupleOf(tokens, old(position)))
      decreases |tokens| - position, 0
    {
      hide Holds, Since, Tree, Bindings, BindingOf, Taken, Wanted;
      ghost var o := Here();
      Opens();
      var children := Take([], o);
      ghost var first := Acc(o, children);
      var more := true;
      while more && !At(Eof) && !At(RParen)
        invariant Valid() && Open(o, children) && old(position) < position
        invariant Bindings(tokens, first)
               == if more then Bindings(tokens, Acc(o, children)) else Wanted(tokens, Acc(o, children), RParen)
        decreases more, |tokens| - position
      {
        BindingsStep(tokens, Acc(o, children));
        ghost var at := Here();
        var entry := ParseBinding();
        children := Add(children, entry, o, at, BindingOf(tokens, at.start));
        children, more := Allow(Comma, children, o);
      }
      BindingsStep(tokens, Acc(o, children));
      children := Want(RParen, children, o);
      n := Close(TuplePattern, children, o);
    }

    /** A nested tuple, or a name as a pattern of its own. */
    method ParseBinding() returns (n: SyntaxNode)
      requires Valid()
      modifies this`position, this`diagnostics
      ensures Valid() && Built(old(Here()), n, BindingOf(tokens, old(position)))
      decreases |tokens| - position, 1
    {
      hide Holds, Since, Tree, BindingTupleOf, Wanted;
      ghost var o := Here();
      Opens();
      if At(LParen) {
        n := ParseBindingTuple();
      } else {
        var name := Want(Identifier, [], o);
        n := Close(Pattern, name, o);
      }
    }

    method AddTypeAnnotation(children: seq<Element>, ghost o: Opening) returns (out: seq<Element>)
      requires Valid() && Open(o, children)
      modifies this`position, this`diagnostics
      ensures Valid() && Open(o, out) && Acc(o, out) == Annotated(tokens, old(Acc(o, children)))
    {
      hide Holds, Since, Tree, Typ, Taken;
      out := children;
      if At(Colon) {
        out := Take(out, o);
        out := AddType(out, o);
      }
    }

    // ---------------------------------------------------------------- statements

    /** A block of statements; a body that is not already at its end takes at least one token. */
    method ParseStatementBlock() returns (n: SyntaxNode)
      requires Valid()
      modifies this`position, this`diagnostics
      ensures Valid() && Built(old(Here()), n, BodyOf(tokens, old(position)))
      decreases |tokens| - position, 9
    {
      hide Holds, Since, Tree, Body, BlockStart, StatementOf, Taken, Wanted;
      ghost var o := Here();
      Opens();
      var block := ExpectBlockStart([], o);
      var statements := 0;
      while !At(Eof) && !At(Dedent)
        invariant Valid() && Open(o, block)
        invariant Body(tokens, Acc(o, block), statements > 0) == BodyOf(tokens, o.start)
        decreases |tokens| - position
      {
        BodyStep(tokens, Acc(o, block), statements > 0);
        if At(Newline) {
          block := Take(block, o);
          continue;
        }
        ghost var at := Here();
        var before := position;
        var statement := ParseStatement();
        block := Add(block, statement, o, at, StatementOf(tokens, at.start));
        statements := statements + 1;
        if position == before {
          block := Take(block, o);
        }
      }
      BodyStep(tokens, Acc(o, block), statements > 0);
      if statements == 0 {
        Complain(block, o);
      }
      block := Want(Dedent, block, o);
      n := Close(Block, block, o);
    }

    method AddBlock(children: seq<Element>, ghost o: Opening) returns (out: seq<Element>)
      requires Valid() && Open(o, children)
      modifies this`position, this`diagnostics
      ensures Valid() && Open(o, out) && Acc(o, out) == Bodied(tokens, old(Acc(o, children)))
      decreases |tokens| - position, 10
    {
      hide Holds, Since, Tree, BodyOf;
      ghost var at := Here();
      var block := ParseStatementBlock();
      out := Add(children, block, o, at, BodyOf(tokens, at.start));
    }

    method ParseStatement() returns (n: SyntaxNode)
      requires Valid() && !At(Eof)
      modifies this`position, this`diagnostics
      ensures Valid() && Built(old(Here()), n, StatementOf(tokens, old(position)))
      decreases |tokens| - position, 8
    {
      hide LetOf, ReturnOf, SimpleOf, IfOf, MatchOf, ForOf, ConditionalOf, UnsafeOf, AssignmentOf, Tree;
      var k := tokens[position].kind;
      if k == Word(Let) || k == Word(Var) {
        n := ParseLet();
      } else if k == Word(Return) {
        n := ParseReturn();
      } else if k == Word(Break) {
        n := ParseSimpleStatement(BreakStatement);
      } else if k == Word(Continue) {
        n := ParseSimpleStatement(ContinueStatement);
      } else if k == Word(Pass) {
        n := ParseSimpleStatement(PassStatement);
      } else if k == Word(If) {
        n := ParseIf();
      } else if k == Word(Match) {
        n := ParseMatch();
      } else if k == Word(For) {
        n := ParseFor();
      } else if k == Word(While) {
        n := ParseConditional(WhileStatement);
      } else if k == Word(Unsafe) && tokens[position + 1].kind == Colon {
        n := ParseUnsafeBlock();
      } else {
        n := ParseExpressionOrAssignment();
      }
    }

    method ParseLet() returns (n: SyntaxNode)
      requires Valid() && !At(Eof)
      modifies this`position, this`diagnostics
      ensures Valid() && Built(old(Here()), n, LetOf(tokens, old(position)))
    {
      hide Holds, Since, Tree, Taken, Named, Annotated, Wanted, Exp, LineTail;
      ghost var o := Here();
      Opens();
      var children := Take([], o);
      children := AddBoundNames(children, o);
      children := AddTypeAnnotation(children, o);
      children := Want(Assign, children, o);
      children := AddExpression(children, o);
      children := ExpectLineEnd(children, o);
      n := Close(LetStatement, children, o);
    }

    method ParseReturn() returns (n: SyntaxNode)
      requires Valid() && !At(Eof)
      modifies this`position, this`diagnostics
      ensures Valid() && Built(old(Here()), n, ReturnOf(tokens, old(position)))
    {
      hide Holds, Since, Tree, Taken, Exp, LineTail;
      ghost var o := Here();
      Opens();
      var children := Take([], o);
      if !IsLineEnd(tokens[position].kind) {
        children := AddExpression(children, o);
      }
      children := ExpectLineEnd(children, o);
      n := Close(ReturnStatement, children, o);
    }

    method ParseSimpleStatement(form: Form) returns (n: SyntaxNode)
      requires Valid() && !At(Eof)
      modifies this`position, this`diagnostics
      ensures Valid() && Built(old(Here()), n, SimpleOf(tokens, old(position), form))
    {
      hide Holds, Since, Tree, Taken, LineTail;
      ghost var o := Here();
      Opens();
      var children := Take([], o);
      children := ExpectLineEnd(children, o);
      n := Close(form, children, o);
    }

    method ParseIf() returns (n: SyntaxNode)
      requires Valid() && !At(Eof)
      modifies this`position, this`diagnostics
      ensures Valid() && Built(old(Here()), n, IfOf(tokens, old(position)))
      decreases |tokens| - position, 7
    {
      hide Holds, Since, Tree, Taken, Exp, Bodied, ElseOf;
      ghost var o := Here();
      Opens();
      var children := Take([], o);
      children := AddExpression(children, o);
      children := AddBlock(children, o);
      if At(Word(Else)) {
        ghost var at := Here();
        var clause := ParseElse();
        children := Add(children, clause, o, at, ElseOf(tokens, at.start));
      }
      n := Close(IfStatement, children, o);
    }

    /** An `else` and its block. */
    method ParseElse() returns (n: SyntaxNode)
      requires Valid() && !At(Eof)
      modifies this`position, this`diagnostics
      ensures Valid() && Built(old(Here()), n, ElseOf(tokens, old(position)))
      decreases |tokens| - position, 7
    {
      hide Holds, Since, Tree, Taken, Bodied;
      ghost var o := Here();
      Opens();
      var children := Take([], o);
      children := AddBlock(children, o);
      n := Close(ElseClause, children, o);
    }

    /** `while`: the keyword, an expression and a block. */
    method ParseConditional(form: Form) returns (n: SyntaxNode)
      requires Valid() && !At(Eof)
      modifies this`position, this`diagnostics
      ensures Valid() && Built(old(Here()), n, ConditionalOf(tokens, old(position), form))
      decreases |tokens| - position, 7
    {
      hide Holds, Since, Tree, Taken, Exp, Bodied;
      ghost var o := Here();
      Opens();
      var children := Take([], o);
      children := AddExpression(children, o);
      children := AddBlock(children, o);
      n := Close(form, children, o);
    }

    method ParseFor() returns (n: SyntaxNode)
      requires Valid() && !At(Eof)
      modifies this`position, this`diagnostics
      ensures Valid() && Built(old(Here()), n, ForOf(tokens, old(position)))
      decreases |tokens| - position, 7
    {
      hide Holds, Since, Tree, Taken, Wanted, Exp, Bodied;
      ghost var o := Here();
      Opens();
      var children := Take([], o);
      children := Want(Identifier, children, o);
      children := Want(Word(In), children, o);
      children := AddExpression(children, o);
      children := AddBlock(children, o);
      n := Close(ForStatement, children, o);
    }

    method ParseUnsafeBlock() returns (n: SyntaxNode)
      requires Valid() && !At(Eof)
      modifies this`position, this`diagnostics
      ensures Valid() && Built(old(Here()), n, UnsafeOf(tokens, old(position)))
      decreases |tokens| - position, 7
    {
      hide Holds, Since, Tree, Taken, Bodied;
      ghost var o := Here();
      Opens();
      var children := Take([], o);
      children := AddBlock(children, o);
      n := Close(UnsafeBlock, children, o);
    }

    method ParseMatch() returns (n: SyntaxNode)
      requires Valid() && !At(Eof)
      modifies this`position, this`diagnostics
      ensures Valid() && Built(old(Here()), n, MatchOf(tokens, old(position)))
      decreases |tokens| - position, 7
    {
      hide Holds, Since, Tree, Taken, Exp, ArmsOf;
      ghost var o := Here();
      Opens();
      var children := Take([], o);
      children := AddExpression(children, o);
      ghost var at := Here();
      var body := ParseArms();
      children := Add(children, body, o, at, ArmsOf(tokens, at.start));
      n := Close(MatchStatement, children, o);
    }

    /** The arms are not checked for progress: each one takes a token whatever it begins with. */
    method ParseArms() returns (n: SyntaxNode)
      requires Valid()
      modifies this`position, this`diagnostics
      ensures Valid() && Built(old(Here()), n, ArmsOf(tokens, old(position)))
      decreases |tokens| - position, 12
    {
      hide Holds, Since, Tree, Arms, BlockStart, ArmOf, Taken, Wanted;
      ghost var o := Here();
      Opens();
      var block := ExpectBlockStart([], o);
      var arms := 0;
      while !At(Eof) && !At(Dedent)
        invariant Valid() && Open(o, block)
        invariant Arms(tokens, Acc(o, block), arms > 0) == ArmsOf(tokens, o.start)
        decreases |tokens| - position
      {
        ArmsStep(tokens, Acc(o, block), arms > 0);
        if At(Newline) {
          block := Take(block, o);
          continue;
        }
        ghost var at := Here();
        var arm := ParseMatchArm();
        block := Add(block, arm, o, at, ArmOf(tokens, at.start));
        arms := arms + 1;
      }
      ArmsStep(tokens, Acc(o, block), arms > 0);
      if arms == 0 {
        Complain(block, o);
      }
      block := Want(Dedent, block, o);
      n := Close(Block, block, o);
    }

    method ParseMatchArm() returns (n: SyntaxNode)
      requires Valid() && !At(Eof) && !At(Dedent)
      modifies this`position, this`diagnostics
      ensures Valid() && Built(old(Here()), n, ArmOf(tokens, old(position)))
      decreases |tokens| - position, 11
    {
      hide Holds, Since, Tree, PatternOf, Guarded, Bodied;
      ghost var o := Here();
      Opens();
      var pattern := ParsePattern();
      var children := Add([], pattern, o, o, PatternOf(tokens, o.start));
      children := AddGuard(children, o);
      children := AddBlock(children, o);
      n := Close(MatchArm, children, o);
    }

    method AddGuard(children: seq<Element>, ghost o: Opening) returns (out: seq<Element>)
      requires Valid() && Open(o, children)
      modifies this`position, this`diagnostics
      ensures Valid() && Open(o, out) && Acc(o, out) == Guarded(tokens, old(Acc(o, children)))
    {
      hide Holds, Since, Tree, Taken, Exp;
      out := children;
      if At(Word(If)) {
        ghost var at := Here();
        Opens();
        var guard := Take([], at);
        guard := AddExpression(guard, at);
        ghost var parsed := Made(Guard, Acc(at, guard));
        var g := Close(Guard, guard, at);
        out := Add(out, g, o, at, parsed);
      }
    }

    method ParseExpressionOrAssignment() returns (n: SyntaxNode)
      requires Valid()
      modifies this`position, this`diagnostics
      ensures Valid() && Built(old(Here()), n, AssignmentOf(tokens, old(position)))
    {
      hide Holds, Since, Tree, Taken, Exp, LineTail;
      ghost var o := Here();
      Opens();
      var children := AddExpression([], o);
      var form := ExpressionStatement;
      if At(Assign) || At(CompoundAssign) {
        children := Take(children, o);
        children := AddExpression(children, o);
        form := AssignmentStatement;
      }
      children := ExpectLineEnd(children, o);
      n := Close(form, children, o);
    }

    // ---------------------------------------------------------------- items

    method ParseTest() returns (n: SyntaxNode)
      requires Valid()
      modifies this`position, this`diagnostics
      ensures Valid() && Built(old(Here()), n, TestOf(tokens, old(position)))
    {
      hide Holds, Since, Tree, Wanted, Bodied;
      ghost var o := Here();
      Opens();
      var children := Want(Word(Test), [], o);
      children := Want(Identifier, children, o);
      children := AddBlock(children, o);
      n := Close(TestItem, children, o);
    }

    method ParseField() returns (n: SyntaxNode)
      requires Valid()
      modifies this`position, this`diagnostics
      ensures Valid() && Built(old(Here()), n, FieldOf(tokens, old(position)))
    {
      hide Holds, Since, Tree, Wanted, Allowed, Typ, LineTail;
      ghost var o := Here();
      Opens();
      var children, ate := Allow(Word(Pub), [], o);
      children := Want(Identifier, children, o);
      children := Want(Colon, children, o);
      children := AddType(children, o);
      children, ate := Allow(Comma, children, o);
      children := ExpectLineEnd(children, o);
      n := Close(Field, children, o);
    }

    method ParseGenericParameters() returns (n: SyntaxNode)
      requires Valid()
      modifies this`position, this`diagnostics
      ensures Valid() && Built(old(Here()), n, GenericsOf(tokens, old(position)))
    {
      hide Holds, Since, Tree, Generics, GenericOf, Taken, Wanted;
      ghost var o := Here();
      Opens();
      var children := Want(LBracket, [], o);
      ghost var first := Acc(o, children);
      var more := true;
      while more && !At(Eof) && !At(RBracket)
        invariant Valid() && Open(o, children)
        invariant Generics(tokens, first)
               == if more then Generics(tokens, Acc(o, children)) else Wanted(tokens, Acc(o, children), RBracket)
        decreases more, |tokens| - position
      {
        GenericsStep(tokens, Acc(o, children));
        ghost var at := Here();
        var parameter := ParseGenericParameter();
        children := Add(children, parameter, o, at, GenericOf(tokens, at.start));
        children, more := Allow(Comma, children, o);
      }
      GenericsStep(tokens, Acc(o, children));
      children := Want(RBracket, children, o);
      n := Close(GenericParameters, children, o);
    }

    method ParseGenericParameter() returns (n: SyntaxNode)
      requires Valid()
      modifies this`position, this`diagnostics
      ensures Valid() && Built(old(Here()), n, GenericOf(tokens, old(position)))
    {
      hide Holds, Since, Tree, Bounds, Typ, Taken, Wanted;
      ghost var o := Here();
      Opens();
      var children := Want(Identifier, [], o);
      if At(Colon) {
        children := Take(children, o);
        children := AddType(children, o);
        children := AddBounds(children, o);
      }
      n := Close(GenericParameter, children, o);
    }

    /** What is added to a bound. */
    method AddBounds(children: seq<Element>, ghost o: Opening) returns (out: seq<Element>)
      requires Valid() && Open(o, children)
      modifies this`position, this`diagnostics
      ensures Valid() && Open(o, out) && Acc(o, out) == Bounds(tokens, old(Acc(o, children)))
    {
      hide Holds, Since, Tree, Typ, Taken;
      out := children;
      while At(Op(Plus))
        invariant Valid() && Open(o, out) && Bounds(tokens, Acc(o, out)) == Bounds(tokens, old(Acc(o, children)))
        decreases |tokens| - position
      {
        out := Take(out, o);
        out := AddType(out, o);
      }
    }

    method ParseDeriveList() returns (n: SyntaxNode)
      requires Valid()
      modifies this`position, this`diagnostics
      ensures Valid() && Built(old(Here()), n, DerivesOf(tokens, old(position)))
    {
      hide Holds, Since, Tree, Derives, Pathed, Taken, Wanted;
      ghost var o := Here();
      Opens();
      var children := Want(LParen, [], o);
      if At(RParen) {
        Complain(children, o);
      }
      ghost var first := Acc(o, children);
      var more := true;
      while more && !At(Eof) && !At(RParen)
        invariant Valid() && Open(o, children)
        invariant Derives(tokens, first)
               == if more then Derives(tokens, Acc(o, children)) else Wanted(tokens, Acc(o, children), RParen)
        decreases more, |tokens| - position
      {
        DerivesStep(tokens, Acc(o, children));
        children := AddPath(children, o);
        children, more := Allow(Comma, children, o);
      }
      DerivesStep(tokens, Acc(o, children));
      children := Want(RParen, children, o);
      n := Close(DeriveList, children, o);
    }

    method ClassifyItem() returns (k: Kind)
      requires Valid()
      ensures k == Head(tokens, position)
    {
      var offset := 0;
      while tokens[position + offset].kind == Newline
        invariant position + offset < |tokens|
        invariant NewlinesEnd(tokens, position + offset) == NewlinesEnd(tokens, position)
        decreases |tokens| - offset
      {
        offset := offset + 1;
      }
      while tokens[position + offset].kind == Word(Pub) || tokens[position + offset].kind == Word(Unsafe)
        invariant position + offset < |tokens|
        invariant MarksEnd(tokens, position + offset) == MarksEnd(tokens, NewlinesEnd(tokens, position))
        decreases |tokens| - offset
      {
        offset := offset + 1;
      }
      k := tokens[position + offset].kind;
    }

    /** The node of the specification was read; nothing if the stack overflowed, which with room for
        every token left happens only where the specification has no end. */
    ghost predicate Ended(o: Opening, r: Option<SyntaxNode>, spec: Option<Parsed>, room: bool)
      reads this
    {
      && (r.Some? ==> spec.Some? && Built(o, r.value, spec.value))
      && (r.None? && room ==> spec.None?)
    }

    /** `depth` is how many more nested calls the stack has room for; `None` is its overflow. */
    method ParseItem(depth: nat) returns (r: Option<SyntaxNode>)
      requires Valid()
      modifies this`position, this`diagnostics
      ensures Valid() && old(position) <= position
      ensures Ended(old(Here()), r, ItemOf(tokens, old(position)), depth >= |tokens| - old(position))
      decreases depth, 3
    {
      hide Members, ModuleHead, StructHead, ModuleBody, TestOf, Recovered, UnsafeModule, MarksEnd,
        NewlinesEnd, Head, Holds, Since, Tree;
      var head := ClassifyItem();
      if head == Word(Mod) {
        if depth == 0 {
          return None;
        }
        r := ParseModule(depth - 1);
      } else if head == Word(Struct) {
        var n := ParseStruct();
        r := Some(n);
      } else if head == Word(Test) {
        var n := ParseTest();
        r := Some(n);
      } else {
        var n := ParseNoItem();
        r := Some(n);
      }
    }

    /** A line that is no item. */
    method ParseNoItem() returns (n: SyntaxNode)
      requires Valid()
      requires Head(tokens, position) != Word(Mod) && Head(tokens, position) != Word(Struct)
      requires Head(tokens, position) != Word(Test)
      modifies this`position, this`diagnostics
      ensures Valid() && Built(old(Here()), n, ItemOf(tokens, old(position)).value)
    {
      hide Recovered, Head, Holds, Since, Tree;
      ghost var o := Here();
      Opens();
      Complain([], o);
      var children := RecoverLine([], o);
      n := CloseError(children, o);
    }

    method ParseModule(depth: nat) returns (r: Option<SyntaxNode>)
      requires Valid() && Head(tokens, position) == Word(Mod)
      modifies this`position, this`diagnostics
      ensures Valid() && old(position) <= position
      ensures Ended(old(Here()), r, ItemOf(tokens, old(position)), depth + 1 >= |tokens| - old(position))
      decreases depth, 6
    {
      hide Members, UnsafeModule, MarksEnd, NewlinesEnd, BlockStart, Wanted, Allowed, Head, Holds, Since, Tree,
        ModuleBody;
      ghost var o := Here();
      Opens();
      var children, ate := Allow(Word(Pub), [], o);
      children := Want(Word(Mod), children, o);
      children := Want(Identifier, children, o);
      ModuleEnds(tokens, o.start);
      ghost var at := Here();
      ModuleBodyStart(tokens, o.start);
      var body := ParseItemBlock(true, depth);
      if body.None? {
        return None;
      }
      ModuleMade(tokens, o.start);
      children := Add(children, body.value, o, at, MembersOf(tokens, at.start, true).value);
      ghost var parsed := Made(Module, Acc(o, children));
      var n := Close(Module, children, o);
      r := Some(n);
    }

    method ParseStruct() returns (n: SyntaxNode)
      requires Valid() && Head(tokens, position) == Word(Struct)
      modifies this`position, this`diagnostics
      ensures Valid() && Built(old(Here()), n, ItemOf(tokens, old(position)).value)
      decreases 0, 2
    {
      hide ItemOf, MembersOf, BlockStart, Wanted, Allowed, Parametrized, Derived, Head, Holds, Since, Tree;
      ghost var o := Here();
      Opens();
      var children, ate := Allow(Word(Pub), [], o);
      children := Want(Word(Struct), children, o);
      children := Want(Identifier, children, o);
      children := AddGenericParameters(children, o);
      children := AddDeriveList(children, o);
      ghost var at := Here();
      StructMade(tokens, o.start);
      var body := ParseItemBlock(false, 0);
      children := Add(children, body.value, o, at, MembersOf(tokens, at.start, false).value);
      n := Close(StructItem, children, o);
    }

    method AddGenericParameters(children: seq<Element>, ghost o: Opening) returns (out: seq<Element>)
      requires Valid() && Open(o, children)
      modifies this`position, this`diagnostics
      ensures Valid() && Open(o, out) && Acc(o, out) == Parametrized(tokens, old(Acc(o, children)))
    {
      hide Holds, Since, Tree, GenericsOf;
      out := children;
      if At(LBracket) {
        ghost var at := Here();
        var parameters := ParseGenericParameters();
        out := Add(children, parameters, o, at, GenericsOf(tokens, at.start));
      }
    }

    method AddDeriveList(children: seq<Element>, ghost o: Opening) returns (out: seq<Element>)
      requires Valid() && Open(o, children)
      modifies this`position, this`diagnostics
      ensures Valid() && Open(o, out) && Acc(o, out) == Derived(tokens, old(Acc(o, children)))
    {
      hide Holds, Since, Tree, DerivesOf;
      out := children;
      if At(LParen) {
        ghost var at := Here();
        var derives := ParseDeriveList();
        out := Add(children, derives, o, at, DerivesOf(tokens, at.start));
      }
    }

    /** The body of a module or of a struct. */
    method ParseItemBlock(inModule: bool, depth: nat) returns (r: Option<SyntaxNode>)
      requires Valid()
      modifies this`position, this`diagnostics
      ensures Valid() && old(position) <= position && (!inModule ==> r.Some?)
      ensures Ended(old(Here()), r, MembersOf(tokens, old(position), inModule),
                    depth >= |tokens| - BlockStart(tokens, Start(old(position))).next)
      decreases depth, if inModule then 5 else 1
    {
      hide Members, MemberOf, BlockStart, Taken, Wanted, Holds, Since, Tree;
      ghost var o := Here();
      Opens();
      var block := ExpectBlockStart([], o);
      ghost var first := position;
      var members := 0;
      while !At(Eof) && !At(Dedent)
        invariant Valid() && Open(o, block) && first <= position
        invariant Members(tokens, Acc(o, block), inModule, members > 0) == MembersOf(tokens, o.start, inModule)
        decreases |tokens| - position
      {
        MembersStep(tokens, Acc(o, block), inModule, members > 0);
        if At(Newline) {
          block := Take(block, o);
          continue;
        }
        ghost var at := Here();
        var before := position;
        var member := ParseMember(inModule, depth);
        if member.None? {
          return None;
        }
        block := Add(block, member.value, o, at, MemberOf(tokens, at.start, inModule).value);
        members := members + 1;
        if position == before {
          block := Take(block, o);
        }
      }
      MembersStep(tokens, Acc(o, block), inModule, members > 0);
      if members == 0 {
        Complain(block, o);
      }
      block := Want(Dedent, block, o);
      ghost var parsed := Made(Block, Acc(o, block));
      var n := Close(Block, block, o);
      r := Some(n);
    }

    /** `pass`, an item of a module, or a field of a struct. */
    method ParseMember(inModule: bool, depth: nat) returns (r: Option<SyntaxNode>)
      requires Valid() && !At(Eof)
      modifies this`position, this`diagnostics
      ensures Valid() && old(position) <= position && (!inModule ==> r.Some?)
      ensures Ended(old(Here()), r, MemberOf(tokens, old(position), inModule), depth >= |tokens| - old(position))
      decreases depth, if inModule then 4 else 0
    {
      hide ItemOf, FieldOf, SimpleOf, Tree;
      ghost var o := Here();
      if At(Word(Pass)) {
        var n := ParseSimpleStatement(PassStatement);
        r := Some(n);
      } else if inModule {
        r := ParseItem(depth);
      } else {
        var n := ParseField();
        r := Some(n);
      }
    }

    /** The whole parser: the tree it returns is the one specified, with exactly the tokens of the
        stream as its leaves.  It reports nothing exactly when the stream is a well-formed file, and
        then returns that file.  With room on the stack it fails to return a tree exactly when an
        `unsafe` module begins where an item begins. */
    method ParseFile(depth: nat) returns (r: Option<SyntaxNode>)
      requires Valid() && position == 0 && diagnostics == []
      modifies this`position, this`diagnostics
      ensures r.Some? ==> Leaves(r.value) == tokens
      ensures r.Some? ==> FileOf(tokens) == Some(Parsed(r.value, |tokens|, diagnostics))
      ensures r.Some? && diagnostics == [] ==> WellFile(r.value)
      ensures forall n :: WellFile(n) && Leaves(n) == tokens ==>
                && (r.Some? ==> r == Some(n) && diagnostics == [])
                && (depth >= |tokens| ==> r.Some?)
      ensures SomeUnsafe(tokens, ItemStarts(tokens)) ==> r.None?
      ensures depth >= |tokens| ==> (r.None? <==> SomeUnsafe(tokens, ItemStarts(tokens)))
    {
      hide Items, ItemOf, Newlines, SomeUnsafe, ItemStarts, Taken, Holds, Since, Tree, WellFile;
      FileExactly(tokens);
      ghost var o := Here();
      Opens();
      var children := EatNewlines([], o);
      FileUnending(tokens);
      while !At(Eof)
        invariant Valid() && Open(o, children)
        invariant Items(tokens, Acc(o, children)) == FileOf(tokens)
        decreases |tokens| - position
      {
        FileStep(tokens, Acc(o, children));
        if At(Dedent) {
          Complain(children, o);
          children := Take(children, o);
          continue;
        }
        ghost var at := Here();
        var before := position;
        var item := ParseItem(depth);
        if item.None? {
          return None;
        }
        children := Add(children, item.value, o, at, ItemOf(tokens, at.start).value);
        if position == before {
          Complain(children, o);
          children := Take(children, o);
        }
        children := EatNewlines(children, o);
      }
      FileStep(tokens, Acc(o, children));
      WholeFile(o, children);
      var end := Leaf(tokens[position]);
      position := position + 1;
      r := Some(SyntaxNode(Outer(File), children + [end]));
    }

    lemma WholeFile(o: Opening, children: seq<Element>)
      requires Valid() && At(Eof) && Open(o, children) && o.start == 0 && o.reported == []
      ensures Acc(o, children) == Listed(children, |tokens| - 1, diagnostics)
      ensures Leaves(SyntaxNode(Outer(File), children + [Leaf(tokens[position])])) == tokens
    {
      CoversLeaf(tokens, position);
      CoversAppend(tokens, 0, position, position + 1, children, [Leaf(tokens[position])]);
    }
  }

  lemma UnsafeFirst(ts: seq<Token>)
    requires Stream(ts) && |ts| > 2 && ts[0].kind == Word(Unsafe) && ts[1].kind == Word(Mod)
    ensures SomeUnsafe(ts, ItemStarts(ts))
  {
    hide ItemOf, StartsInMembers;
    assert NewlinesEnd(ts, 0) == 0 && MarksEnd(ts, 0) == MarksEnd(ts, 1) == 1;
    assert 0 in StartsInItem(ts, 0);
    assert 0 in ItemStarts(ts) && UnsafeModule(ts, 0);
  }

  /** Totality fails on `unsafe mod name:`: however much stack there is, the file is never parsed. */
  method UnsafeModuleOverflows(depth: nat) returns (r: Option<SyntaxNode>)
    ensures r.None?
  {
    hide SomeUnsafe, ItemStarts, FileOf, WellFile, Leaves;
    var tokens := [Token(Word(Unsafe), 0), Token(Word(Mod), 1), Token(Identifier, 2), Token(Colon, 3), Token(Eof, 4)];
    UnsafeFirst(tokens);
    var parser := new Parser(tokens);
    r := parser.ParseFile(depth);
  }
}
