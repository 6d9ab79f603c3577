/** Tokens and the lossless syntax tree (src/syntax.rs:253-303, src/token.rs), for the part of the
    grammar without functions, closures, attributes, documentation comments, quotes and macros.
 */
module Syntax {
  datatype Kind =
    | Identifier
    | PathWord  // `root`, `self`, `Self`, `super`
    | Integer
    | Literal   // floats, strings, characters, `true`, `false`, `null`
    | Op(op: Operator)
    | Word(word: Keyword)
    | LParen | RParen | LBracket | RBracket | LBrace | RBrace
    | Comma | Colon | Semicolon | Dot | DotDot | Question
    | Assign | CompoundAssign
    | Newline | Indent | Dedent | Eof

  datatype Operator =
    | Bang | Tilde | Plus | PlusPlus | Minus | Star | Slash | Percent | Amp | Pipe | Caret | Shl | Shr
    | AndAnd | OrOr | EqEq | NotEq | Less | LessEq | Greater | GreaterEq

  datatype Keyword =
    | As | Let | Var | Return | Break | Continue | Pass | If | Else | Match | For | While | In
    | Pub | Unsafe | Mod | Struct | Test

  /** `text` stands for the spelling and the span. */
  datatype Token = Token(kind: Kind, text: nat)

  datatype NodeKind =
    | UnaryExpression | BinaryExpression | CastExpression | LiteralExpression | NameExpression
    | ParenthesizedExpression | TupleExpression | ArrayExpression | MemberExpression | TupleFieldExpression
    | CallExpression | BracketExpression | TryExpression | RecordExpression | RecordField
    | Type | TypeArguments | Error
    | Outer(form: Form)

  /** Nodes outside expressions and types. */
  datatype Form =
    | File | Module | StructItem | TestItem | Block | Field | GenericParameters | GenericParameter | DeriveList
    | LetStatement | ReturnStatement | BreakStatement | ContinueStatement | PassStatement
    | IfStatement | ElseClause | MatchStatement | MatchArm | Guard | ForStatement | WhileStatement
    | UnsafeBlock | AssignmentStatement | ExpressionStatement
    | Pattern | AlternativePattern | DereferencePattern | TuplePattern | VariantPattern | RecordPattern | PatternField

  datatype SyntaxNode = SyntaxNode(kind: NodeKind, children: seq<Element>)

  datatype Element = Leaf(token: Token) | Node(node: SyntaxNode)

  /** The tokens of a tree, left to right. */
  function Leaves(n: SyntaxNode): seq<Token>
    decreases n
  {
    Flat(n.children)
  }

  function Flat(cs: seq<Element>): seq<Token>
    decreases cs
  {
    if cs == [] then [] else LeavesOf(cs[0]) + Flat(cs[1..])
  }

  function LeavesOf(e: Element): seq<Token>
    decreases e
  {
    match e
    case Leaf(t) => [t]
    case Node(n) => Leaves(n)
  }

  lemma {:induction false} FlatAppend(a: seq<Element>, b: seq<Element>)
    ensures Flat(a + b) == Flat(a) + Flat(b)
  {
    if a == [] {
      assert a + b == b;
    } else {
      assert (a + b)[1..] == a[1..] + b;
      FlatAppend(a[1..], b);
    }
  }

  lemma FlatOne(e: Element)
    ensures Flat([e]) == LeavesOf(e)
  {
    var none: seq<Element> := [];
    assert [e][1..] == none;
  }

  /** Pushing one child. */
  function Push(cs: seq<Element>, e: Element): (r: seq<Element>)
    ensures Flat(r) == Flat(cs) + LeavesOf(e)
  {
    FlatAppend(cs, [e]);
    FlatOne(e);
    cs + [e]
  }

  /** A token stream as the lexer hands it over: it ends in its only Eof. */
  ghost predicate Stream(ts: seq<Token>) {
    |ts| > 0 && forall i :: 0 <= i < |ts| ==> (ts[i].kind == Eof <==> i == |ts| - 1)
  }
}
