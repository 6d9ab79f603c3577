/** Every well-formed tree is what the parser makes of its tokens.
 */
module PrattRoundTrip {
  import opened Pratt
  import opened PrattSteps
  import opened PrattTrees
  import opened Syntax
  import opened Wrappers

  /** The tokens `s` stand at position `p`. */
  ghost predicate Matches(ts: seq<Token>, p: nat, s: seq<Token>) {
    p + |s| <= |ts| && ts[p..p + |s|] == s
  }

  lemma MatchesApart(ts: seq<Token>, p: nat, a: seq<Token>, b: seq<Token>)
    requires Matches(ts, p, a + b)
    ensures Matches(ts, p, a) && Matches(ts, p + |a|, b)
  {
    assert ts[p..p + |a|] == (a + b)[..|a|];
    assert ts[p + |a|..p + |a + b|] == (a + b)[|a|..];
  }

  lemma MatchesToken(ts: seq<Token>, p: nat, t: Token)
    requires Matches(ts, p, [t])
    ensures p < |ts| && ts[p] == t
  {
    assert ts[p..p + 1][0] == t;
  }

  /** The first child, and the others after it. */
  lemma Walk(ts: seq<Token>, p: nat, cs: seq<Element>)
    requires cs != [] && Matches(ts, p, Flat(cs))
    ensures |Flat(cs)| == |LeavesOf(cs[0])| + |Flat(cs[1..])|
    ensures Matches(ts, p, LeavesOf(cs[0])) && Matches(ts, p + |LeavesOf(cs[0])|, Flat(cs[1..]))
    ensures cs[0].Leaf? ==> |LeavesOf(cs[0])| == 1 && p < |ts| && ts[p] == cs[0].token
  {
    hide Matches, LeavesOf;
    MatchesApart(ts, p, LeavesOf(cs[0]), Flat(cs[1..]));
    if cs[0].Leaf? {
      LeafLeaves(cs[0]);
      MatchesToken(ts, p, cs[0].token);
    }
  }

  lemma LeafLeaves(e: Element)
    requires e.Leaf?
    ensures LeavesOf(e) == [e.token]
  {
  }

  /** Three children in a row. */
  lemma WalkThree(ts: seq<Token>, p: nat, cs: seq<Element>)
    requires |cs| == 3 && Matches(ts, p, Flat(cs))
    ensures var (a, b, c) := (|LeavesOf(cs[0])|, |LeavesOf(cs[1])|, |LeavesOf(cs[2])|);
            && |Flat(cs)| == a + b + c
            && Matches(ts, p, LeavesOf(cs[0])) && Matches(ts, p + a, LeavesOf(cs[1]))
            && Matches(ts, p + a + b, LeavesOf(cs[2]))
            && (cs[0].Leaf? ==> a == 1 && p < |ts| && ts[p] == cs[0].token)
            && (cs[1].Leaf? ==> b == 1 && p + a < |ts| && ts[p + a] == cs[1].token)
            && (cs[2].Leaf? ==> c == 1 && p + a + b < |ts| && ts[p + a + b] == cs[2].token)
    ensures cs == [cs[0], cs[1], cs[2]]
  {
    hide Matches, LeavesOf, Flat;
    var (a, b) := (|LeavesOf(cs[0])|, |LeavesOf(cs[1])|);
    Walk(ts, p, cs);
    WalkTwo(ts, p + a, cs[1..]);
  }

  lemma WalkTwo(ts: seq<Token>, p: nat, cs: seq<Element>)
    requires |cs| == 2 && Matches(ts, p, Flat(cs))
    ensures var (a, b) := (|LeavesOf(cs[0])|, |LeavesOf(cs[1])|);
            && |Flat(cs)| == a + b
            && Matches(ts, p, LeavesOf(cs[0])) && Matches(ts, p + a, LeavesOf(cs[1]))
            && (cs[0].Leaf? ==> a == 1 && p < |ts| && ts[p] == cs[0].token)
            && (cs[1].Leaf? ==> b == 1 && p + a < |ts| && ts[p + a] == cs[1].token)
    ensures cs == [cs[0], cs[1]]
  {
    hide Matches, LeavesOf, Flat;
    Walk(ts, p, cs);
    Walk(ts, p + |LeavesOf(cs[0])|, cs[1..]);
    FlatNone(cs[1..][1..]);
  }

  lemma FlatNone(cs: seq<Element>)
    requires cs == []
    ensures Flat(cs) == []
  {
  }

  // ------------------------------------------------------------------ first tokens

  /** The first child of an expression: an operand or a token that can only begin one. */
  lemma HeadShape(n: SyntaxNode)
    requires Well(n)
    ensures n.children != []
    ensures var e := n.children[0]; if e.Leaf? then Starts(e.token.kind) else Well(e.node)
  {
    hide WellItems, WellMore, WellTail, WellType, ComparisonNode, Level, Follow;
    var cs := n.children;
    assert n.kind == UnaryExpression ==> WellUnary(cs);
    assert n.kind == TupleExpression ==> WellTuple(cs);
    if n.kind == CastExpression {
      assert WellCast(cs) && WellOperand(cs[0], CAST_POWER);
    } else if n.kind == BinaryExpression {
      assert WellBinary(cs) && WellOperand(cs[0], BindingPower(cs[1].token.kind).value.left);
    } else if IsPostfix(n.kind) {
      assert WellPostfix(n.kind, cs) && WellOperand(cs[0], CAST_POWER);
    }
  }

  lemma {:induction false} ExprStarts(n: SyntaxNode)
    requires Well(n)
    ensures Leaves(n) != [] && Starts(Leaves(n)[0].kind)
    decreases n
  {
    hide WellItems, WellMore, WellTail, WellType, ComparisonNode, WellTuple;
    var cs := n.children;
    HeadShape(n);
    assert Flat(cs) == LeavesOf(cs[0]) + Flat(cs[1..]);
    if cs[0].Node? {
      ExprStarts(cs[0].node);
    }
  }

  lemma TypeStarts(n: SyntaxNode)
    requires WellType(n)
    ensures Leaves(n) != [] && Starts(Leaves(n)[0].kind)
  {
    var cs := n.children;
    assert Flat(cs) == LeavesOf(cs[0]) + Flat(cs[1..]);
  }

  lemma EntryStarts(e: Element, rule: Rule)
    requires WellEntry(e, rule)
    ensures LeavesOf(e) != [] && Starts(LeavesOf(e)[0].kind)
  {
    match rule
    case Exprs => ExprStarts(e.node);
    case Types => TypeStarts(e.node);
    case Fields =>
      var cs := e.node.children;
      assert Flat(cs) == LeavesOf(cs[0]) + Flat(cs[1..]);
  }

  lemma StartsAt(ts: seq<Token>, p: nat, s: seq<Token>)
    requires Matches(ts, p, s) && s != []
    ensures p < |ts| && ts[p] == s[0]
  {
    assert ts[p..p + |s|][0] == s[0];
  }

  // ------------------------------------------------------------------ what may follow

  lemma {:induction false} TypeClosed(k: Kind, n: SyntaxNode)
    requires Ends(k) || k == Word(As) || BindingPower(k).Some?
    ensures TypeFollow(k, n)
    decreases n
  {
    var cs := n.children;
    if cs != [] && cs[|cs| - 1].Node? {
      TypeClosed(k, cs[|cs| - 1].node);
    }
  }

  lemma {:induction false} ExprClosed(k: Kind, n: SyntaxNode)
    requires Ends(k)
    ensures Follow(k, n) && Stops(k, n.kind, 0)
    decreases n
  {
    var cs := n.children;
    if cs != [] && cs[|cs| - 1].Node? {
      ExprClosed(k, cs[|cs| - 1].node);
      TypeClosed(k, cs[|cs| - 1].node);
    }
  }

  lemma UnaryShape(n: SyntaxNode)
    requires Well(n) && n.kind == UnaryExpression
    ensures var cs := n.children;
            && |cs| >= 2 && cs[0].Leaf? && IsUnary(cs[0].token.kind) && cs[|cs| - 1].Node?
            && (|| cs == [cs[0], cs[1]]
                || (cs == [cs[0], cs[1], cs[2]] && cs[0].token.kind == Op(Amp) && IsLeaf(cs[1], Word(Var))))
            && Level(n) == UNARY_POWER && Well(cs[|cs| - 1].node) && Level(cs[|cs| - 1].node) >= UNARY_POWER
            && forall k :: Follow(k, n) ==> Follow(k, cs[|cs| - 1].node) && !PostfixStart(k, cs[|cs| - 1].node.kind)
  {
    hide WellCast, WellBinary, WellTuple, WellPostfix, WellItems;
    assert WellUnary(n.children);
    assert WellOperand(n.children[|n.children| - 1], UNARY_POWER);
    assert |n.children| == 2 ==> n.children == [n.children[0], n.children[1]];
  }

  lemma PowerStep(k: Kind)
    requires BindingPower(k).Some?
    ensures BindingPower(k).value.right == BindingPower(k).value.left + 1
    ensures 1 <= BindingPower(k).value.left < CAST_POWER - 1 && k != Word(As)
    ensures forall left :: !PostfixStart(k, left)
  {
  }

  /** What a well-formed binary expression consists of. */
  lemma BinaryShape(n: SyntaxNode)
    requires Well(n) && n.kind == BinaryExpression
    ensures |n.children| == 3 && n.children[0].Node? && n.children[1].Leaf? && n.children[2].Node?
    ensures var (l, op, r) := (n.children[0].node, n.children[1].token, n.children[2].node);
            && n == SyntaxNode(BinaryExpression, [Node(l), Leaf(op), Node(r)])
            && BindingPower(op.kind).Some?
            && var power := BindingPower(op.kind).value;
               && Level(n) == power.left && Well(l) && Level(l) >= power.left
               && Well(r) && Level(r) >= power.right && power.right == power.left + 1
               && (power.comparison ==> !ComparisonNode(l) && !ComparisonNode(r))
  {
    hide WellUnary, WellCast, WellTuple, WellPostfix, WellItems, ComparisonNode, Follow;
    assert WellBinary(n.children);
    var power := BindingPower(n.children[1].token.kind).value;
    PowerStep(n.children[1].token.kind);
    assert WellOperand(n.children[0], power.left) && WellOperand(n.children[2], power.right);
    assert n.children == [n.children[0], n.children[1], n.children[2]];
  }

  lemma CastShape(n: SyntaxNode)
    requires Well(n) && n.kind == CastExpression
    ensures |n.children| == 3 && n.children[0].Node? && n.children[1].Leaf? && n.children[2].Node?
    ensures var (e, keyword, t) := (n.children[0].node, n.children[1].token, n.children[2].node);
            && n == SyntaxNode(CastExpression, [Node(e), Leaf(keyword), Node(t)]) && keyword.kind == Word(As)
            && Level(n) == CAST_POWER && Well(e) && Level(e) >= CAST_POWER && WellType(t)
            && forall k :: Follow(k, n) ==> TypeFollow(k, t)
  {
    hide WellUnary, WellBinary, WellTuple, WellPostfix, WellItems, WellType, TypeFollow;
    assert WellCast(n.children);
    assert WellOperand(n.children[0], CAST_POWER) && WellEntry(n.children[2], Types);
    assert n.children == [n.children[0], n.children[1], n.children[2]];
  }

  /** A binary operator or `as` is not taken in by an operand that binds at least as tightly. */
  lemma {:induction false} OperatorFollows(k: Kind, n: SyntaxNode)
    requires Well(n)
    requires if k == Word(As) then Level(n) >= CAST_POWER
             else BindingPower(k).Some? && Level(n) >= BindingPower(k).value.left
    ensures Follow(k, n)
    decreases n
  {
    hide Well, Level, WellEntry, TypeFollow;
    var cs := n.children;
    if n.kind == UnaryExpression {
      UnaryShape(n);
      OperatorFollows(k, cs[|cs| - 1].node);
    } else if n.kind == BinaryExpression {
      BinaryShape(n);
      OperatorFollows(k, cs[2].node);
    } else if n.kind == CastExpression {
      CastShape(n);
      TypeClosed(k, cs[2].node);
    }
  }

  // ------------------------------------------------------------------ parsing a tree's tokens

  /** The position after a tree that begins at `p`. */
  ghost function End(p: nat, n: SyntaxNode): nat {
    p + |Leaves(n)|
  }

  ghost predicate Ready(ts: seq<Token>, p: nat, n: SyntaxNode) {
    Stream(ts) && Matches(ts, p, Leaves(n)) && End(p, n) < |ts|
  }

  lemma {:induction false} ExprCompletes(ts: seq<Token>, p: nat, n: SyntaxNode, min: nat)
    requires Ready(ts, p, n) && Well(n) && Level(n) >= min && Follow(ts[End(p, n)].kind, n)
    ensures ParseBp(ts, p, min) == Climb(ts, Parsed(n, End(p, n), []), min)
    decreases n, 3
  {
    if n.kind == CastExpression {
      CastCompletes(ts, p, n, min);
    } else if n.kind == BinaryExpression {
      BinaryCompletes(ts, p, n, min);
    } else if IsPostfix(n.kind) {
      PostfixCompletes(ts, p, n, min);
    } else {
      PrefixCompletes(ts, p, n);
    }
  }

  /** Round trip for an operand: where the loop must stop, the parser returns exactly the tree. */
  lemma {:induction false} OperandCompletes(ts: seq<Token>, p: nat, n: SyntaxNode, min: nat)
    requires Ready(ts, p, n) && Well(n) && Level(n) >= min
    requires Follow(ts[End(p, n)].kind, n) && Stops(ts[End(p, n)].kind, n.kind, min)
    ensures ParseBp(ts, p, min) == Parsed(n, End(p, n), [])
    decreases n, 4
  {
    hide Well, Follow, Leaves, Level, Climb, ParseBp, Stops;
    ExprCompletes(ts, p, n, min);
    StopStep(ts, Parsed(n, End(p, n), []), min);
  }

  lemma BinaryFollow(k: Kind, n: SyntaxNode)
    requires Well(n) && n.kind == BinaryExpression && Follow(k, n)
    ensures |n.children| == 3 && n.children[1].Leaf? && n.children[2].Node?
    ensures BindingPower(n.children[1].token.kind).Some?
    ensures Follow(k, n.children[2].node)
    ensures Stops(k, n.children[2].node.kind, BindingPower(n.children[1].token.kind).value.right)
  {
    hide Well, Level;
    BinaryShape(n);
  }

  lemma NoErrors()
    ensures var none: seq<nat> := []; none + none == none
  {
  }

  lemma {:induction false} BinaryCompletes(ts: seq<Token>, p: nat, n: SyntaxNode, min: nat)
    requires Ready(ts, p, n) && Well(n) && Level(n) >= min && Follow(ts[End(p, n)].kind, n)
    requires n.kind == BinaryExpression
    ensures ParseBp(ts, p, min) == Climb(ts, Parsed(n, End(p, n), []), min)
    decreases n, 2
  {
    hide Matches, PostfixStart, Well, Level, Follow, Stops, BindingPower, Climb, ParseBp, ComparisonNode;
    BinaryShape(n);
    var cs := n.children;
    WalkThree(ts, p, cs);
    var (l, op, r) := (cs[0].node, cs[1].token, cs[2].node);
    var q := End(p, l);
    PowerStep(op.kind);
    OperatorFollows(op.kind, l);
    ExprCompletes(ts, p, l, min);
    BinaryFollow(ts[End(p, n)].kind, n);
    OperandCompletes(ts, q + 1, r, BindingPower(op.kind).value.right);
    BinaryStep(ts, Parsed(l, q, []), Parsed(r, End(p, n), []), min);
    NoErrors();
  }

  lemma {:induction false} CastCompletes(ts: seq<Token>, p: nat, n: SyntaxNode, min: nat)
    requires Ready(ts, p, n) && Well(n) && Level(n) >= min && Follow(ts[End(p, n)].kind, n)
    requires n.kind == CastExpression
    ensures ParseBp(ts, p, min) == Climb(ts, Parsed(n, End(p, n), []), min)
    decreases n, 2
  {
    hide Matches, Well, Level, Follow, TypeFollow, WellType, Climb, ParseBp, ParseType;
    CastShape(n);
    var cs := n.children;
    WalkThree(ts, p, cs);
    var (e, t) := (cs[0].node, cs[2].node);
    var q := End(p, e);
    OperatorFollows(Word(As), e);
    ExprCompletes(ts, p, e, min);
    TypeCompletes(ts, q + 1, t);
    CastStep(ts, Parsed(e, q, []), Parsed(t, End(p, n), []), min);
    NoErrors();
  }

  // ------------------------------------------------------------------ lists

  /** Where the list `cs` begins at `p` and the stream goes on after it. */
  ghost predicate ReadyList(ts: seq<Token>, p: nat, cs: seq<Element>) {
    Stream(ts) && Matches(ts, p, Flat(cs)) && p + |Flat(cs)| < |ts|
  }

  ghost function Whole(p: nat, cs: seq<Element>): Listed {
    Listed(cs, p + |Flat(cs)|, [])
  }

  lemma {:induction false} EntryCompletes(ts: seq<Token>, p: nat, e: Element, rule: Rule)
    requires WellEntry(e, rule) && Ready(ts, p, e.node) && Closes(ts[End(p, e.node)].kind)
    ensures ParseEntry(ts, p, rule) == Parsed(e.node, End(p, e.node), [])
    decreases e, 5
  {
    hide Matches, Well, WellType, Leaves, Follow, TypeFollow, ParseBp, ParseType;
    match rule
    case Exprs =>
      ExprClosed(ts[End(p, e.node)].kind, e.node);
      OperandCompletes(ts, p, e.node, 0);
    case Types =>
      TypeClosed(ts[End(p, e.node)].kind, e.node);
      TypeCompletes(ts, p, e.node);
    case Fields => FieldCompletes(ts, p, e);
  }

  lemma {:induction false} FieldCompletes(ts: seq<Token>, p: nat, e: Element)
    requires WellEntry(e, Fields) && Ready(ts, p, e.node) && Closes(ts[End(p, e.node)].kind)
    ensures ParseEntry(ts, p, Fields) == Parsed(e.node, End(p, e.node), [])
    decreases e, 4
  {
    hide Matches, Well, WellType, Follow, Stops, ParseBp, ParseEntry, Level;
    var cs := e.node.children;
    FieldStep(ts, p);
    Walk(ts, p, cs);
    if |cs| == 1 {
      FlatNone(cs[1..]);
      assert cs == [cs[0]];
    } else {
      WalkThree(ts, p, cs);
      assert WellOperand(cs[2], 0);
      ExprClosed(ts[End(p, e.node)].kind, cs[2].node);
      OperandCompletes(ts, p + 2, cs[2].node, 0);
    }
  }

  lemma {:induction false} ItemsComplete(ts: seq<Token>, p: nat, cs: seq<Element>, rule: Rule, close: Kind)
    requires WellItems(cs, rule, close) && ReadyList(ts, p, cs) && Closer(close)
    ensures ParseItems(ts, p, rule, close) == Whole(p, cs)
    decreases cs, 6
  {
    hide Matches, WellEntry, LeavesOf, ParseItems;
    if |cs| == 1 {
      Walk(ts, p, cs);
      FlatNone(cs[1..]);
      ItemsEnd(ts, p, rule, close);
      assert cs == [cs[0]];
    } else {
      var q := ItemsHead(ts, p, cs, rule, close);
      assert |cs| == 2 ==> cs == [cs[0]] + [cs[1]];
      if |cs| > 2 {
        ItemsComplete(ts, q + 1, cs[2..], rule, close);
        assert cs == [cs[0], cs[1]] + cs[2..];
      }
    }
  }

  /** The first entry of a list and the token after it. */
  lemma {:induction false} ItemsHead(ts: seq<Token>, p: nat, cs: seq<Element>, rule: Rule, close: Kind) returns (q: nat)
    requires WellItems(cs, rule, close) && ReadyList(ts, p, cs) && Closer(close) && |cs| >= 2
    ensures p < q < |ts| && ts[q] == cs[1].token && p + |Flat(cs)| == q + 1 + |Flat(cs[2..])|
    ensures Matches(ts, q + 1, Flat(cs[2..]))
    ensures ParseItems(ts, p, rule, close)
         == if ts[q].kind == Comma then
              var rest := ParseItems(ts, q + 1, rule, close);
              Listed([cs[0], cs[1]] + rest.items, rest.next, rest.errors)
            else Listed([cs[0]] + [cs[1]], q + 1, [])
    decreases cs, 5
  {
    hide Matches, WellEntry, WellItems, Leaves, LeavesOf, ParseEntry, ParseItems, Flat;
    ItemsShape(cs, rule, close);
    Walk(ts, p, cs);
    EntryNode(ts, p, cs[0], rule);
    q := End(p, cs[0].node);
    Walk(ts, q, cs[1..]);
    assert cs[1..][1..] == cs[2..];
    EntryCompletes(ts, p, cs[0], rule);
    ItemsStep(ts, p, rule, close, Parsed(cs[0].node, q, []));
  }

  lemma ItemsShape(cs: seq<Element>, rule: Rule, close: Kind)
    requires WellItems(cs, rule, close) && |cs| >= 2
    ensures WellEntry(cs[0], rule) && IsLeaf(cs[1], if |cs| == 2 then close else Comma)
  {
    hide WellEntry;
  }

  /** An entry is a node that does not begin with a closing token. */
  lemma EntryNode(ts: seq<Token>, p: nat, e: Element, rule: Rule)
    requires WellEntry(e, rule) && Matches(ts, p, LeavesOf(e))
    ensures e.Node? && LeavesOf(e) == Leaves(e.node) && p < |ts| && Starts(ts[p].kind)
  {
    EntryStarts(e, rule);
    StartsAt(ts, p, LeavesOf(e));
  }

  lemma {:induction false} MoreCompletes(ts: seq<Token>, p: nat, cs: seq<Element>, rule: Rule, close: Kind,
                                         trailing: bool)
    requires WellMore(cs, rule, close, trailing) && ReadyList(ts, p, cs) && Closer(close)
    ensures ParseMore(ts, p, rule, close, trailing) == Whole(p, cs)
    ensures ts[p].kind == if |cs| == 1 then close else Comma
    decreases cs, 6
  {
    hide Matches, WellEntry, LeavesOf, ParseMore, WellMore, Flat;
    if |cs| <= 2 {
      MoreLast(ts, p, cs, rule, close, trailing);
    } else {
      var q := MoreHead(ts, p, cs, rule, close, trailing);
      MoreCompletes(ts, q, cs[2..], rule, close, trailing);
      assert cs == [cs[0], cs[1]] + cs[2..];
    }
  }

  /** The rest of a list: its closing token, a trailing comma first, or a comma and an entry. */
  lemma MoreShape(cs: seq<Element>, rule: Rule, close: Kind, trailing: bool)
    requires WellMore(cs, rule, close, trailing)
    ensures cs != [] && IsLeaf(cs[0], if |cs| == 1 then close else Comma)
    ensures |cs| == 2 ==> trailing && IsLeaf(cs[1], close)
    ensures |cs| > 2 ==> WellEntry(cs[1], rule) && WellMore(cs[2..], rule, close, trailing)
  {
    hide WellEntry;
  }

  lemma {:induction false} MoreLast(ts: seq<Token>, p: nat, cs: seq<Element>, rule: Rule, close: Kind, trailing: bool)
    requires WellMore(cs, rule, close, trailing) && ReadyList(ts, p, cs) && Closer(close) && |cs| <= 2
    ensures cs != [] && ParseMore(ts, p, rule, close, trailing) == Whole(p, cs)
    ensures ts[p].kind == if |cs| == 1 then close else Comma
  {
    hide Matches, WellMore, Flat, LeavesOf, ParseMore;
    MoreShape(cs, rule, close, trailing);
    MoreEnd(ts, p, rule, close, trailing);
    if |cs| == 1 {
      Walk(ts, p, cs);
      FlatNone(cs[1..]);
      assert cs == [cs[0]];
    } else {
      WalkTwo(ts, p, cs);
    }
  }

  /** The next comma of a list and the entry after it. */
  lemma {:induction false} MoreHead(ts: seq<Token>, p: nat, cs: seq<Element>, rule: Rule, close: Kind,
                                    trailing: bool)
    returns (q: nat)
    requires WellMore(cs, rule, close, trailing) && ReadyList(ts, p, cs) && Closer(close) && |cs| > 2
    ensures p < q < |ts| && ts[p].kind == Comma && p + |Flat(cs)| == q + |Flat(cs[2..])|
    ensures Matches(ts, q, Flat(cs[2..])) && WellMore(cs[2..], rule, close, trailing)
    ensures var rest := ParseMore(ts, q, rule, close, trailing);
            ParseMore(ts, p, rule, close, trailing) == Listed([cs[0], cs[1]] + rest.items, rest.next, rest.errors)
    decreases cs, 5
  {
    hide Matches, WellEntry, WellMore, Leaves, LeavesOf, ParseEntry, ParseMore, Flat;
    MoreShape(cs, rule, close, trailing);
    Walk(ts, p, cs);
    Walk(ts, p + 1, cs[1..]);
    assert cs[1..][1..] == cs[2..];
    EntryNode(ts, p + 1, cs[1], rule);
    q := End(p + 1, cs[1].node);
    MoreClosed(ts, q, cs[2..], rule, close, trailing);
    EntryCompletes(ts, p + 1, cs[1], rule);
    MoreStep(ts, p, rule, close, trailing, Parsed(cs[1].node, q, []));
  }

  /** A list goes on with a comma or its closing token. */
  lemma MoreClosed(ts: seq<Token>, p: nat, cs: seq<Element>, rule: Rule, close: Kind, trailing: bool)
    requires WellMore(cs, rule, close, trailing) && Matches(ts, p, Flat(cs))
    ensures p < |ts| && (ts[p].kind == Comma || ts[p].kind == close)
  {
    hide Matches, WellMore, LeavesOf, Flat;
    MoreShape(cs, rule, close, trailing);
    Walk(ts, p, cs);
  }

  // ------------------------------------------------------------------ the other forms

  lemma {:induction false} PrefixCompletes(ts: seq<Token>, p: nat, n: SyntaxNode)
    requires Ready(ts, p, n) && Well(n) && Follow(ts[End(p, n)].kind, n)
    requires n.kind != CastExpression && n.kind != BinaryExpression && !IsPostfix(n.kind)
    ensures ParsePrefix(ts, p) == Parsed(n, End(p, n), [])
    decreases n, 2
  {
    hide ParsePrefix, WellUnary, WellTuple, WellItems, WellOperand, Follow, Matches, LeavesOf;
    if n.kind == UnaryExpression {
      UnaryCompletes(ts, p, n);
    } else if n.kind == ParenthesizedExpression || n.kind == TupleExpression {
      TupleCompletes(ts, p, n);
    } else if n.kind == ArrayExpression {
      ArrayCompletes(ts, p, n);
    } else {
      var cs := n.children;
      Walk(ts, p, cs);
      FlatNone(cs[1..]);
      AtomStep(ts, p);
      assert cs == [cs[0]];
    }
  }

  lemma {:induction false} ArrayCompletes(ts: seq<Token>, p: nat, n: SyntaxNode)
    requires Ready(ts, p, n) && Well(n) && n.kind == ArrayExpression
    ensures ParsePrefix(ts, p) == Parsed(n, End(p, n), [])
    decreases n, 1
  {
    hide ParsePrefix, WellUnary, WellTuple, WellItems, WellOperand, ParseItems, Matches, LeavesOf;
    var cs := n.children;
    Walk(ts, p, cs);
    ItemsComplete(ts, p + 1, cs[1..], Exprs, RBracket);
    ArrayStep(ts, p, Whole(p + 1, cs[1..]));
    assert cs == [cs[0]] + cs[1..];
  }

  lemma {:induction false} UnaryCompletes(ts: seq<Token>, p: nat, n: SyntaxNode)
    requires Ready(ts, p, n) && Well(n) && n.kind == UnaryExpression && Follow(ts[End(p, n)].kind, n)
    ensures ParsePrefix(ts, p) == Parsed(n, End(p, n), [])
    decreases n, 1
  {
    hide ParsePrefix, ParseBp, Well, Follow, Level, Matches, Flat, Leaves, LeavesOf;
    UnaryShape(n);
    NodeLeaves(Node(n));
    var cs := n.children;
    UnaryPlaces(ts, p, cs);
    UnaryOperand(ts, p, n);
    UnaryStep(ts, p, |cs| == 3, Parsed(cs[|cs| - 1].node, End(p, n), []));
  }

  /** The operand of a prefix operator is parsed back, and is not mistaken for the mark of `&var`. */
  lemma {:induction false} UnaryOperand(ts: seq<Token>, p: nat, n: SyntaxNode)
    requires Ready(ts, p, n) && Well(n) && n.kind == UnaryExpression && Follow(ts[End(p, n)].kind, n)
    ensures |n.children| >= 2 && n.children[|n.children| - 1].Node?
    ensures var q := p + |n.children| - 1;
            && q < |ts| && Starts(ts[q].kind)
            && ParseBp(ts, q, UNARY_POWER) == Parsed(n.children[|n.children| - 1].node, End(p, n), [])
    decreases n, 0
  {
    hide ParsePrefix, ParseBp, Well, Follow, Level, Matches, Flat, Leaves, LeavesOf, Starts, IsUnary;
    UnaryShape(n);
    NodeLeaves(Node(n));
    var cs := n.children;
    var x := cs[|cs| - 1].node;
    var q := p + |cs| - 1;
    UnaryPlaces(ts, p, cs);
    ExprStarts(x);
    StartsAt(ts, q, Leaves(x));
    OperandCompletes(ts, q, x, UNARY_POWER);
  }

  /** Where the operand of a prefix operator stands, with one or two tokens before it. */
  lemma UnaryPlaces(ts: seq<Token>, p: nat, cs: seq<Element>)
    requires 2 <= |cs| <= 3 && cs[0].Leaf? && (|cs| == 3 ==> cs[1].Leaf?) && cs[|cs| - 1].Node?
    requires Matches(ts, p, Flat(cs))
    ensures p + |cs| - 1 <= |ts| && Matches(ts, p + |cs| - 1, Leaves(cs[|cs| - 1].node))
    ensures |Flat(cs)| == |cs| - 1 + |Leaves(cs[|cs| - 1].node)|
    ensures forall i :: 0 <= i < |cs| - 1 ==> ts[p + i] == cs[i].token
  {
    hide Matches, Flat, Leaves, LeavesOf;
    NodeLeaves(cs[|cs| - 1]);
    if |cs| == 3 {
      WalkThree(ts, p, cs);
    } else {
      WalkTwo(ts, p, cs);
    }
  }

  lemma NodeLeaves(e: Element)
    requires e.Node?
    ensures LeavesOf(e) == Leaves(e.node) == Flat(e.node.children)
  {
  }

  lemma {:induction false} TupleCompletes(ts: seq<Token>, p: nat, n: SyntaxNode)
    requires Ready(ts, p, n) && Well(n) && (n.kind == ParenthesizedExpression || n.kind == TupleExpression)
    ensures ParsePrefix(ts, p) == Parsed(n, End(p, n), [])
    decreases n, 1
  {
    hide ParsePrefix, ParseMore, WellMore, Well, Matches, Flat, Leaves, Level, LeavesOf;
    TupleShape(n);
    NodeLeaves(Node(n));
    var cs := n.children;
    if |cs| == 2 {
      WalkTwo(ts, p, cs);
      AtomStep(ts, p);
    } else {
      Walk(ts, p, cs);
      Walk(ts, p + 1, cs[1..]);
      assert cs[1..][1..] == cs[2..];
      NodeLeaves(cs[1]);
      TupleRest(ts, p, n);
    }
  }

  lemma {:induction false} TupleRest(ts: seq<Token>, p: nat, n: SyntaxNode)
    requires Stream(ts) && |n.children| > 2 && n.children[1].Node? && p < |ts| && ts[p].kind == LParen
    requires n.kind == if |n.children| > 3 then TupleExpression else ParenthesizedExpression
    requires n.children[0] == Leaf(ts[p]) && Well(n.children[1].node) && WellMore(n.children[2..], Exprs, RParen, true)
    requires Matches(ts, p + 1, Leaves(n.children[1].node))
    requires ReadyList(ts, End(p + 1, n.children[1].node), n.children[2..])
    ensures ParsePrefix(ts, p) == Parsed(n, End(p + 1, n.children[1].node) + |Flat(n.children[2..])|, [])
    decreases n, 0
  {
    hide ParsePrefix, ParseMore, ParseBp, WellMore, Well, Matches, Flat, Leaves, Level, LeavesOf, Follow, Stops;
    var cs := n.children;
    var x := cs[1].node;
    var q := End(p + 1, x);
    MoreCompletes(ts, q, cs[2..], Exprs, RParen, true);
    ExprStarts(x);
    StartsAt(ts, p + 1, Leaves(x));
    ExprClosed(ts[q].kind, x);
    OperandCompletes(ts, p + 1, x, 0);
    ParenthesizedStep(ts, p, Parsed(x, q, []), Whole(q, cs[2..]));
    assert cs == [cs[0], cs[1]] + cs[2..];
  }

  /** Parentheses hold nothing, or an operand and the rest of a list. */
  lemma TupleShape(n: SyntaxNode)
    requires Well(n) && (n.kind == ParenthesizedExpression || n.kind == TupleExpression)
    ensures var cs := n.children;
            && |cs| >= 2 && IsLeaf(cs[0], LParen)
            && (|cs| == 2 ==> n.kind == TupleExpression && IsLeaf(cs[1], RParen) && cs == [cs[0], cs[1]])
            && (|cs| > 2 ==> cs[1].Node? && Well(cs[1].node) && WellMore(cs[2..], Exprs, RParen, true)
                             && (n.kind == TupleExpression <==> |cs| > 3))
  {
    hide WellUnary, WellCast, WellBinary, WellPostfix, WellItems;
    var cs := n.children;
    if n.kind == TupleExpression {
      assert WellTuple(cs);
      if |cs| > 2 {
        assert WellOperand(cs[1], 0);
      }
    } else {
      assert WellOperand(cs[1], 0);
      assert WellMore(cs[2..], Exprs, RParen, true);
    }
  }

  lemma {:induction false} PostfixCompletes(ts: seq<Token>, p: nat, n: SyntaxNode, min: nat)
    requires Ready(ts, p, n) && Well(n) && Level(n) >= min && IsPostfix(n.kind)
    ensures ParseBp(ts, p, min) == Climb(ts, Parsed(n, End(p, n), []), min)
    decreases n, 2
  {
    hide ParseBp, Climb, ParsePostfix, Well, Matches, Flat, Leaves, Level, LeavesOf, Follow;
    PostfixShape(n);
    NodeLeaves(Node(n));
    var cs := n.children;
    var e := cs[0].node;
    Walk(ts, p, cs);
    NodeLeaves(cs[0]);
    var q := End(p, e);
    Walk(ts, q, cs[1..]);
    assert cs[1..][1..] == cs[2..];
    ExprCompletes(ts, p, e, min);
    PostfixStep(ts, Parsed(e, q, []), min);
    TailCompletes(ts, q, n);
  }

  lemma PostfixShape(n: SyntaxNode)
    requires Well(n) && IsPostfix(n.kind)
    ensures |n.children| >= 2 && n.children[0].Node? && n.children[1].Leaf?
    ensures var (e, k) := (n.children[0].node, n.children[1].token.kind);
            && Well(e) && Level(e) == Level(n) && Follow(k, e) && PostfixStart(k, e.kind)
            && WellTail(n.kind, k, n.children[2..])
  {
    hide WellUnary, WellCast, WellBinary, WellTuple, WellItems, WellTail;
    assert WellPostfix(n.kind, n.children);
    assert WellOperand(n.children[0], CAST_POWER);
  }

  lemma {:induction false} TailCompletes(ts: seq<Token>, q: nat, n: SyntaxNode)
    requires Stream(ts) && |n.children| >= 2 && n.children[1].Leaf? && n.children[0].Node? && IsPostfix(n.kind)
    requires q + 1 + |Flat(n.children[2..])| < |ts| && Matches(ts, q + 1, Flat(n.children[2..]))
    requires ts[q] == n.children[1].token && PostfixStart(ts[q].kind, n.children[0].node.kind)
    requires WellTail(n.kind, ts[q].kind, n.children[2..])
    ensures ParsePostfix(ts, Parsed(n.children[0].node, q, []))
         == Parsed(n, q + 1 + |Flat(n.children[2..])|, [])
    decreases n, 1
  {
    hide ParsePostfix, TailKind, Tail, Matches, WellTail, Flat, LeavesOf;
    assert n.children == [n.children[0], n.children[1]] + n.children[2..];
    TailParsed(ts, q + 1, n.kind, ts[q].kind, n.children[2..]);
    TailStep(ts, Parsed(n.children[0].node, q, []));
  }

  lemma {:induction false} TailParsed(ts: seq<Token>, q: nat, kind: NodeKind, k: Kind, tail: seq<Element>)
    requires Stream(ts) && q + |Flat(tail)| < |ts| && Matches(ts, q, Flat(tail)) && WellTail(kind, k, tail)
    ensures TailKind(ts, q, k) == kind && Tail(ts, q, k) == Whole(q, tail)
    decreases tail, 9
  {
    hide ParseItems, ParseArguments, Matches, WellItems, WellMore, Flat, LeavesOf;
    if kind == CallExpression {
      ItemsComplete(ts, q, tail, Exprs, RParen);
    } else if kind == RecordExpression {
      ItemsComplete(ts, q, tail, Fields, RBrace);
    } else if kind == BracketExpression {
      ArgumentsComplete(ts, q, tail);
    } else if kind == TryExpression {
      FlatNone(tail);
    } else {
      Walk(ts, q, tail);
      FlatNone(tail[1..]);
      assert tail == [tail[0]];
    }
  }

  lemma {:induction false} ArgumentsComplete(ts: seq<Token>, p: nat, cs: seq<Element>)
    requires ReadyList(ts, p, cs) && WellTail(BracketExpression, LBracket, cs)
    ensures ParseArguments(ts, p) == Whole(p, cs)
    decreases cs, 7
  {
    hide ParseMore, ParseBp, Matches, WellMore, Well, Flat, LeavesOf, Leaves, Level, Follow, Stops;
    Walk(ts, p, cs);
    if |cs| == 1 {
      FlatNone(cs[1..]);
      assert cs == [cs[0]];
    } else {
      assert WellOperand(cs[0], 0);
      NodeLeaves(cs[0]);
      ArgumentsHead(ts, p, cs);
    }
  }

  lemma {:induction false} ArgumentsHead(ts: seq<Token>, p: nat, cs: seq<Element>)
    requires Stream(ts) && cs != [] && cs[0].Node? && Well(cs[0].node) && WellMore(cs[1..], Exprs, RBracket, false)
    requires Matches(ts, p, Leaves(cs[0].node)) && ReadyList(ts, End(p, cs[0].node), cs[1..])
    ensures ParseArguments(ts, p) == Listed(cs, End(p, cs[0].node) + |Flat(cs[1..])|, [])
    decreases cs, 6
  {
    hide ParseMore, ParseBp, Matches, WellMore, Well, Flat, LeavesOf, Leaves, Level, Follow, Stops, ParseArguments;
    var x := cs[0].node;
    MoreCompletes(ts, End(p, x), cs[1..], Exprs, RBracket, false);
    ExprStarts(x);
    StartsAt(ts, p, Leaves(x));
    assert WellEntry(cs[0], Exprs);
    EntryCompletes(ts, p, cs[0], Exprs);
    ArgumentsStep(ts, p, Parsed(x, End(p, x), []));
    assert cs == [cs[0]] + cs[1..];
  }

  // ------------------------------------------------------------------ types

  lemma {:induction false} TypeCompletes(ts: seq<Token>, p: nat, n: SyntaxNode)
    requires Ready(ts, p, n) && WellType(n) && TypeFollow(ts[End(p, n)].kind, n)
    ensures ParseType(ts, p) == Parsed(n, End(p, n), [])
    decreases n, 2
  {
    hide ParseType, ParseSequenceType, Matches, WellMore, WellMarks, WellPath, WellArguments, WellOperand, TypeFollow,
         LeavesOf;
    var cs := n.children;
    var k := cs[0].token.kind;
    if k == Op(Bang) {
      Walk(ts, p, cs);
      FlatNone(cs[1..]);
      TypeAtomStep(ts, p);
      assert cs == [cs[0]];
    } else if k == Op(Amp) || k == Op(Star) {
      ReferenceCompletes(ts, p, n);
    } else if k == LBracket {
      SequenceCompletes(ts, p, n);
    } else if k == LParen {
      TupleTypeCompletes(ts, p, n);
    } else {
      PathTypeCompletes(ts, p, n);
    }
  }

  /** A tuple type holds nothing, or a type and the rest of a list. */
  lemma TupleTypeShape(n: SyntaxNode)
    requires WellType(n) && n.children[0].token.kind == LParen
    ensures var cs := n.children;
            && n.kind == Type && |cs| >= 2 && cs[0].Leaf?
            && (|cs| == 2 ==> IsLeaf(cs[1], RParen) && cs == [cs[0], cs[1]])
            && (|cs| > 2 ==> cs[1].Node? && WellType(cs[1].node) && WellMore(cs[2..], Types, RParen, true))
  {
    hide WellMarks, WellMore, WellPath, WellArguments, WellOperand;
  }

  lemma {:induction false} TupleTypeCompletes(ts: seq<Token>, p: nat, n: SyntaxNode)
    requires Ready(ts, p, n) && WellType(n) && n.children[0].token.kind == LParen
    ensures ParseType(ts, p) == Parsed(n, End(p, n), [])
    decreases n, 1
  {
    hide ParseType, ParseMore, Matches, WellMore, WellType, Flat, LeavesOf, Leaves;
    TupleTypeShape(n);
    var cs := n.children;
    NodeLeaves(Node(n));
    if |cs| == 2 {
      WalkTwo(ts, p, cs);
      TypeAtomStep(ts, p);
    } else {
      Walk(ts, p, cs);
      Walk(ts, p + 1, cs[1..]);
      assert cs[1..][1..] == cs[2..];
      NodeLeaves(cs[1]);
      TupleTypeRest(ts, p, n);
    }
  }

  lemma {:induction false} TupleTypeRest(ts: seq<Token>, p: nat, n: SyntaxNode)
    requires Stream(ts) && |n.children| > 2 && n.children[1].Node? && n.kind == Type
    requires p < |ts| && ts[p].kind == LParen && n.children[0] == Leaf(ts[p])
    requires WellType(n.children[1].node) && WellMore(n.children[2..], Types, RParen, true)
    requires Matches(ts, p + 1, Leaves(n.children[1].node))
    requires ReadyList(ts, End(p + 1, n.children[1].node), n.children[2..])
    ensures ParseType(ts, p) == Parsed(n, End(p + 1, n.children[1].node) + |Flat(n.children[2..])|, [])
    decreases n, 0
  {
    hide ParseType, ParseMore, Matches, WellMore, WellType, Flat, LeavesOf, Leaves;
    var cs := n.children;
    var x := cs[1].node;
    var q := End(p + 1, x);
    MoreCompletes(ts, q, cs[2..], Types, RParen, true);
    TypeStarts(x);
    StartsAt(ts, p + 1, Leaves(x));
    TypeClosed(ts[q].kind, x);
    TypeCompletes(ts, p + 1, x);
    TupleTypeStep(ts, p, Parsed(x, q, []));
    assert cs == [cs[0], cs[1]] + cs[2..];
  }

  lemma {:induction false} ReferenceCompletes(ts: seq<Token>, p: nat, n: SyntaxNode)
    requires Ready(ts, p, n) && WellType(n) && TypeFollow(ts[End(p, n)].kind, n)
    requires n.children[0].token.kind == Op(Amp) || n.children[0].token.kind == Op(Star)
    ensures ParseType(ts, p) == Parsed(n, End(p, n), [])
    decreases n, 1
  {
    hide ParseType, Matches, WellType, Flat, LeavesOf, Leaves, TypeFollow, WellMarks;
    ReferenceShape(n);
    NodeLeaves(Node(n));
    var cs := n.children;
    MarksAt(ts, p, cs);
    NodeLeaves(cs[|cs| - 1]);
    ReferenceFollow(ts[End(p, n)].kind, n);
    TypeCompletes(ts, p + |cs| - 1, cs[|cs| - 1].node);
    ReferenceParsed(ts, p, n, End(p, n));
  }

  lemma ReferenceParsed(ts: seq<Token>, p: nat, n: SyntaxNode, end: nat)
    requires Stream(ts) && n.kind == Type && 2 <= |n.children| <= 4 && WellMarks(n.children[1..|n.children| - 1])
    requires var (cs, q) := (n.children, p + |n.children| - 1);
             && (forall i :: 0 <= i < |cs| - 1 ==> p + i < |ts| && cs[i] == Leaf(ts[p + i]))
             && p < |ts| && (ts[p].kind == Op(Amp) || ts[p].kind == Op(Star))
             && cs[|cs| - 1].Node? && WellType(cs[|cs| - 1].node) && Matches(ts, q, Leaves(cs[|cs| - 1].node))
             && q < |ts| && ParseType(ts, q) == Parsed(cs[|cs| - 1].node, end, [])
    ensures ParseType(ts, p) == Parsed(n, end, [])
  {
    hide ParseType, Eat, Matches, WellType, Leaves, WellMarks;
    var cs := n.children;
    TypeStarts(cs[|cs| - 1].node);
    StartsAt(ts, p + |cs| - 1, Leaves(cs[|cs| - 1].node));
    ReferenceStep(ts, p);
    MarksEaten(ts, p, cs);
    assert cs == [cs[0]] + cs[1..|cs| - 1] + [cs[|cs| - 1]];
  }

  lemma ReferenceShape(n: SyntaxNode)
    requires WellType(n) && (n.children[0].token.kind == Op(Amp) || n.children[0].token.kind == Op(Star))
    ensures var cs := n.children;
            && |cs| >= 2 && cs[0].Leaf? && WellMarks(cs[1..|cs| - 1]) && cs[|cs| - 1].Node?
            && WellType(cs[|cs| - 1].node) && n.kind == Type
  {
    hide WellMarks, WellMore, WellPath, WellArguments, WellOperand;
  }

  lemma ReferenceFollow(k: Kind, n: SyntaxNode)
    requires TypeFollow(k, n) && |n.children| >= 2 && n.children[0].Leaf? && n.children[|n.children| - 1].Node?
    requires n.children[0].token.kind == Op(Amp) || n.children[0].token.kind == Op(Star)
    ensures TypeFollow(k, n.children[|n.children| - 1].node)
  {
  }

  /** Where the children of a reference type stand. */
  lemma MarksAt(ts: seq<Token>, p: nat, cs: seq<Element>)
    requires |cs| >= 2 && cs[0].Leaf? && WellMarks(cs[1..|cs| - 1]) && Matches(ts, p, Flat(cs))
    ensures |cs| <= 4 && Matches(ts, p + |cs| - 1, LeavesOf(cs[|cs| - 1]))
    ensures |Flat(cs)| == |cs| - 1 + |LeavesOf(cs[|cs| - 1])|
    ensures forall i :: 0 <= i < |cs| - 1 ==> p + i < |ts| && cs[i] == Leaf(ts[p + i])
  {
    hide Matches, Flat, LeavesOf;
    assert forall i :: 0 < i < |cs| - 1 ==> cs[i] == cs[1..|cs| - 1][i - 1];
    Walk(ts, p, cs);
    if |cs| == 2 {
      WalkTwo(ts, p, cs);
    } else if |cs| == 3 {
      WalkThree(ts, p, cs);
    } else {
      WalkThree(ts, p + 1, cs[1..]);
    }
  }

  lemma MarksEaten(ts: seq<Token>, p: nat, cs: seq<Element>)
    requires Stream(ts) && 2 <= |cs| <= 4 && WellMarks(cs[1..|cs| - 1]) && p + |cs| - 1 < |ts|
    requires forall i :: 0 <= i < |cs| - 1 ==> cs[i] == Leaf(ts[p + i])
    requires Starts(ts[p + |cs| - 1].kind)
    ensures var mark := Eat(ts, p + 1, Word(Var));
            var foreign := Eat(ts, mark.next, Word(Unsafe));
            mark.items + foreign.items == cs[1..|cs| - 1] && foreign.next == p + |cs| - 1
  {
    assert forall i :: 0 < i < |cs| - 1 ==> cs[i] == cs[1..|cs| - 1][i - 1];
  }

  lemma {:induction false} SequenceCompletes(ts: seq<Token>, p: nat, n: SyntaxNode)
    requires Ready(ts, p, n) && WellType(n) && n.children[0].token.kind == LBracket
    ensures ParseType(ts, p) == Parsed(n, End(p, n), [])
    decreases n, 1
  {
    hide ParseType, ParseSequenceType, Matches, Well, WellType, Flat, LeavesOf, Leaves, TypeFollow;
    SequenceShape(n);
    NodeLeaves(Node(n));
    var cs := n.children;
    if |cs| == 3 {
      WalkThree(ts, p, cs);
      NodeLeaves(cs[1]);
      TypeAtomStep(ts, p);
      PlainCompletes(ts, p, n, 1);
    } else if |cs| == 4 {
      MarkedCompletes(ts, p, n);
    } else {
      Walk(ts, p, cs);
      TypeAtomStep(ts, p);
      SizedCompletes(ts, p, n);
    }
  }

  lemma {:induction false} MarkedCompletes(ts: seq<Token>, p: nat, n: SyntaxNode)
    requires Stream(ts) && n.kind == Type && |n.children| == 4 && IsLeaf(n.children[0], LBracket)
    requires IsLeaf(n.children[1], Word(Var)) && IsLeaf(n.children[3], RBracket)
    requires n.children[2].Node? && WellType(n.children[2].node)
    requires Matches(ts, p, Flat(n.children)) && p + |Flat(n.children)| < |ts|
    ensures ParseType(ts, p) == Parsed(n, p + |Flat(n.children)|, [])
    decreases n, 0, 1
  {
    hide ParseType, ParseSequenceType, Matches, WellType, Flat, LeavesOf, Leaves;
    var cs := n.children;
    Walk(ts, p, cs);
    WalkThree(ts, p + 1, cs[1..]);
    assert cs[1..][0] == cs[1] && cs[1..][1] == cs[2] && cs[1..][2] == cs[3];
    NodeLeaves(cs[2]);
    TypeAtomStep(ts, p);
    PlainCompletes(ts, p, n, 2);
  }

  lemma {:induction false} PlainCompletes(ts: seq<Token>, p: nat, n: SyntaxNode, at: nat)
    requires Stream(ts) && n.kind == Type && 1 <= at <= 2 && |n.children| == at + 2 && p + 1 < |ts|
    requires n.children[0] == Leaf(ts[p]) && ts[p].kind == LBracket
    requires at == 2 ==> n.children[1] == Leaf(ts[p + 1]) && ts[p + 1].kind == Word(Var)
    requires n.children[at].Node? && WellType(n.children[at].node) && Ready(ts, p + at, n.children[at].node)
    requires n.children[at + 1] == Leaf(ts[End(p + at, n.children[at].node)])
    requires ts[End(p + at, n.children[at].node)].kind == RBracket
    ensures ParseSequenceType(ts, p) == Parsed(n, End(p + at, n.children[at].node) + 1, [])
    decreases n, 0, 0
  {
    hide ParseType, ParseSequenceType, Matches, WellType, Leaves, TypeFollow;
    var t := n.children[at].node;
    var q := p + at;
    TypeStarts(t);
    StartsAt(ts, q, Leaves(t));
    TypeClosed(ts[End(q, t)].kind, t);
    TypeCompletes(ts, q, t);
    SequenceStep(ts, p, at == 2, Parsed(t, End(q, t), []));
  }

  lemma {:induction false} SizedCompletes(ts: seq<Token>, p: nat, n: SyntaxNode)
    requires Stream(ts) && n.kind == Type && |n.children| == 5 && p + 1 < |ts|
    requires n.children[0] == Leaf(ts[p]) && ts[p].kind == LBracket && IsLeaf(n.children[4], RBracket)
    requires n.children[1].Node? && WellType(n.children[1].node) && IsLeaf(n.children[2], Semicolon)
    requires n.children[3].Node? && Well(n.children[3].node)
    requires Matches(ts, p + 1, Flat(n.children[1..])) && p + 1 + |Flat(n.children[1..])| < |ts|
    ensures ParseSequenceType(ts, p) == Parsed(n, p + 1 + |Flat(n.children[1..])|, [])
    decreases n, 0
  {
    hide ParseType, ParseBp, ParseSequenceType, Matches, WellType, Well, Level, Flat, LeavesOf, Leaves, TypeFollow,
         Follow, Stops;
    var cs := n.children;
    var (t, x) := (cs[1].node, cs[3].node);
    SizedPlaces(ts, p + 1, cs);
    var q := End(p + 1, t);
    var r := End(q + 1, x);
    TypeStarts(t);
    StartsAt(ts, p + 1, Leaves(t));
    TypeClosed(ts[q].kind, t);
    TypeCompletes(ts, p + 1, t);
    ExprClosed(ts[r].kind, x);
    OperandCompletes(ts, q + 1, x, 0);
    SizedStep(ts, p, false, Parsed(t, q, []), Parsed(x, r, []));
    assert cs == [cs[0], cs[1], cs[2], cs[3], cs[4]];
    NoErrors();
  }

  /** Where the children of `[T; N]` stand. */
  lemma SizedPlaces(ts: seq<Token>, p: nat, cs: seq<Element>)
    requires |cs| == 5 && cs[1].Node? && cs[2].Leaf? && cs[3].Node? && cs[4].Leaf?
    requires Matches(ts, p, Flat(cs[1..]))
    ensures var (q, r) := (End(p, cs[1].node), End(End(p, cs[1].node) + 1, cs[3].node));
            && Matches(ts, p, Leaves(cs[1].node)) && Matches(ts, q + 1, Leaves(cs[3].node))
            && q < |ts| && ts[q] == cs[2].token && r < |ts| && ts[r] == cs[4].token
            && p + |Flat(cs[1..])| == r + 1
  {
    hide Matches, Flat, LeavesOf, Leaves;
    Walk(ts, p, cs[1..]);
    NodeLeaves(cs[1]);
    WalkThree(ts, End(p, cs[1].node), cs[1..][1..]);
    NodeLeaves(cs[3]);
  }

  /** `[T]`, `[var T]` or `[T; N]`. */
  lemma SequenceShape(n: SyntaxNode)
    requires WellType(n) && n.children[0].token.kind == LBracket
    ensures n.kind == Type && 3 <= |n.children| <= 5 && n.children[0].Leaf?
    ensures IsLeaf(n.children[|n.children| - 1], RBracket)
    ensures var cs := n.children;
            var at := if |cs| == 4 then 2 else 1;
            && cs[at].Node? && WellType(cs[at].node)
            && (|cs| == 4 ==> IsLeaf(cs[1], Word(Var)))
            && (|cs| == 5 ==> IsLeaf(cs[2], Semicolon) && cs[3].Node? && Well(cs[3].node))
  {
    hide WellMarks, WellMore, WellPath, WellArguments;
    if |n.children| == 5 {
      assert WellOperand(n.children[3], 0);
    }
  }

  lemma {:induction false} PathTypeCompletes(ts: seq<Token>, p: nat, n: SyntaxNode)
    requires Ready(ts, p, n) && WellType(n) && TypeFollow(ts[End(p, n)].kind, n)
    requires IsPath(n.children[0].token.kind)
    ensures ParseType(ts, p) == Parsed(n, End(p, n), [])
    decreases n, 1
  {
    hide ParseType, ParseItems, PathTail, Matches, WellType, WellItems, WellPath, Flat, LeavesOf, Leaves;
    PathShape(n);
    NodeLeaves(Node(n));
    var cs := n.children;
    Walk(ts, p, cs);
    if cs[|cs| - 1].Leaf? {
      NamedFollow(ts[End(p, n)].kind, n);
      NamedCompletes(ts, p, n);
    } else {
      AppliedCompletes(ts, p, n);
    }
  }

  lemma NamedFollow(k: Kind, n: SyntaxNode)
    requires TypeFollow(k, n) && n.children != [] && n.children[0].Leaf? && IsPath(n.children[0].token.kind)
    requires n.children[|n.children| - 1].Leaf?
    ensures k != Dot && k != LBracket
  {
  }

  /** A path without arguments. */
  lemma NamedCompletes(ts: seq<Token>, p: nat, n: SyntaxNode)
    requires Stream(ts) && n.kind == Type && n.children != [] && WellPath(n.children[1..])
    requires p < |ts| && n.children[0] == Leaf(ts[p]) && IsPath(ts[p].kind)
    requires ReadyList(ts, p + 1, n.children[1..])
    requires var k := ts[p + 1 + |Flat(n.children[1..])|].kind; k != Dot && k != LBracket
    ensures ParseType(ts, p) == Parsed(n, p + 1 + |Flat(n.children[1..])|, [])
  {
    hide ParseType, ParseItems, PathTail, Matches, WellPath, Flat, LeavesOf, Leaves;
    var path := n.children[1..];
    var none: seq<Element> := [];
    assert path + none == path;
    FlatNone(none);
    PathWidth(path, none);
    PathCompletes(ts, p + 1, path, none);
    PathStep(ts, p, Listed(path, p + 1 + |path|, []));
    assert n.children == [n.children[0]] + path;
  }

  /** A path with arguments. */
  lemma {:induction false} AppliedCompletes(ts: seq<Token>, p: nat, n: SyntaxNode)
    requires Stream(ts) && n.kind == Type && |n.children| >= 2 && n.children[|n.children| - 1].Node?
    requires WellPath(n.children[1..|n.children| - 1]) && WellArguments(n.children[|n.children| - 1].node)
    requires p < |ts| && n.children[0] == Leaf(ts[p]) && IsPath(ts[p].kind)
    requires ReadyList(ts, p + 1, n.children[1..])
    ensures ParseType(ts, p) == Parsed(n, p + 1 + |Flat(n.children[1..])|, [])
    decreases n, 0
  {
    hide ParseType, ParseItems, PathTail, Matches, WellItems, WellPath, Flat, LeavesOf, Leaves, WellArguments;
    var cs := n.children;
    var path, a := cs[1..|cs| - 1], cs[|cs| - 1].node;
    assert cs[1..] == path + [Node(a)];
    PathWidth(path, [Node(a)]);
    var q := p + 1 + |path|;
    ArgumentsWide(a);
    PathPlaced(ts, p + 1, path, a);
    PathCompletes(ts, p + 1, path, [Node(a)]);
    ItemsComplete(ts, q + 1, a.children[1..], Types, RBracket);
    PathStep(ts, p, Listed(path, q, []));
    assert [a.children[0]] + a.children[1..] == a.children;
    assert cs == [cs[0]] + path + [Node(a)];
    NoErrors();
  }

  lemma PathShape(n: SyntaxNode)
    requires WellType(n) && IsPath(n.children[0].token.kind)
    ensures var cs := n.children;
            && n.kind == Type && cs[0].Leaf? && n.children != []
            && if cs[|cs| - 1].Leaf? then WellPath(cs[1..])
               else |cs| >= 2 && WellPath(cs[1..|cs| - 1]) && WellArguments(cs[|cs| - 1].node)
  {
    hide WellMarks, WellMore, WellPath, WellArguments, WellOperand;
  }

  lemma ArgumentsWide(a: SyntaxNode)
    requires WellArguments(a)
    ensures |Flat([Node(a)])| == 1 + |Flat(a.children[1..])|
    ensures a.kind == TypeArguments && a.children != [] && WellItems(a.children[1..], Types, RBracket)
  {
    hide WellItems;
    FlatOne(Node(a));
    NodeLeaves(Node(a));
    assert Flat(a.children) == LeavesOf(a.children[0]) + Flat(a.children[1..]);
  }

  /** Where the arguments after a path stand. */
  lemma PathPlaced(ts: seq<Token>, p: nat, path: seq<Element>, a: SyntaxNode)
    requires WellPath(path) && WellArguments(a) && Matches(ts, p, Flat(path + [Node(a)]))
    ensures p + |path| < |ts| && a.children != [] && a.children[0] == Leaf(ts[p + |path|])
    ensures ts[p + |path|].kind == LBracket && Matches(ts, p + |path| + 1, Flat(a.children[1..]))
  {
    hide Matches, WellItems, Flat, LeavesOf, WellPath;
    FlatAppend(path, [Node(a)]);
    PathWidth(path, [Node(a)]);
    MatchesApart(ts, p, Flat(path), Flat([Node(a)]));
    FlatOne(Node(a));
    NodeLeaves(Node(a));
    Walk(ts, p + |path|, a.children);
  }

  lemma {:induction false} PathWidth(path: seq<Element>, more: seq<Element>)
    requires WellPath(path)
    ensures |Flat(path + more)| == |path| + |Flat(more)|
  {
    if path == [] {
      assert path + more == more;
    } else {
      var cs := path + more;
      assert cs[1..][1..] == path[2..] + more;
      assert Flat(cs) == LeavesOf(cs[0]) + (LeavesOf(cs[1..][0]) + Flat(cs[1..][1..]));
      PathWidth(path[2..], more);
    }
  }

  /** A dotted path, followed by more children or by a token that does not extend it. */
  lemma {:induction false} PathCompletes(ts: seq<Token>, p: nat, path: seq<Element>, more: seq<Element>)
    requires Stream(ts) && WellPath(path) && Matches(ts, p, Flat(path + more)) && p + |Flat(path + more)| < |ts|
    requires p + |path| < |ts| && ts[p + |path|].kind != Dot
    ensures PathTail(ts, p) == Listed(path, p + |path|, [])
    ensures Matches(ts, p + |path|, Flat(more)) && |Flat(path + more)| == |path| + |Flat(more)|
    decreases path
  {
    hide Matches, Flat, LeavesOf, PathTail;
    PathTailStep(ts, p);
    if path == [] {
      assert path + more == more;
    } else {
      var cs := path + more;
      Walk(ts, p, cs);
      Walk(ts, p + 1, cs[1..]);
      assert cs[1..][1..] == path[2..] + more;
      PathCompletes(ts, p + 2, path[2..], more);
      assert path == [path[0], path[1]] + path[2..];
    }
  }
}
