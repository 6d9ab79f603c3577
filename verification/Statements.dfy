/** The parser outside expressions and types (src/parser.rs:141-166, 273-372, 452-473, 572-625, 814-1215,
    1800-2022) as functions of the tokens: the tree built, the position reached and the places
    diagnostics are reported at, whether the tokens are well formed or not.

    An open node is a `Listed`: its children so far, the position reached, and the errors so far.
 */
module Statements {
  import opened Pratt
  import opened Syntax
  import opened Wrappers

  // ------------------------------------------------------------------ open nodes

  function Start(p: nat): Listed {
    Listed([], p, [])
  }

  function Taken(ts: seq<Token>, acc: Listed): (r: Listed)
    requires Stream(ts) && acc.next < |ts| && ts[acc.next].kind != Eof
    ensures r.next == acc.next + 1 < |ts|
  {
    Listed(acc.items + [Leaf(ts[acc.next])], acc.next + 1, acc.errors)
  }

  function Faulted(acc: Listed): Listed {
    Listed(acc.items, acc.next, acc.errors + [acc.next])
  }

  /** `expect_simple`: a token of kind `k`, or a diagnostic. */
  function Wanted(ts: seq<Token>, acc: Listed, k: Kind): (r: Listed)
    requires Stream(ts) && acc.next < |ts| && k != Eof
    ensures acc.next <= r.next < |ts|
    ensures ts[acc.next].kind == k ==> acc.next < r.next
  {
    if ts[acc.next].kind == k then Taken(ts, acc) else Faulted(acc)
  }

  function Allowed(ts: seq<Token>, acc: Listed, k: Kind): (r: Listed)
    requires Stream(ts) && acc.next < |ts| && k != Eof
    ensures acc.next <= r.next < |ts|
    ensures ts[acc.next].kind == k ==> acc.next < r.next
  {
    if ts[acc.next].kind == k then Taken(ts, acc) else acc
  }

  function Nested(acc: Listed, x: Parsed): Listed {
    Listed(acc.items + [Node(x.node)], x.next, acc.errors + x.errors)
  }

  function Made(form: Form, acc: Listed): Parsed {
    Parsed(SyntaxNode(Outer(form), acc.items), acc.next, acc.errors)
  }

  function MadeError(acc: Listed): Parsed {
    Parsed(SyntaxNode(Error, acc.items), acc.next, acc.errors)
  }

  function Exp(ts: seq<Token>, acc: Listed): (r: Listed)
    requires Stream(ts) && acc.next < |ts|
    ensures acc.next <= r.next < |ts|
  {
    Nested(acc, ParseBp(ts, acc.next, 0))
  }

  function Typ(ts: seq<Token>, acc: Listed): (r: Listed)
    requires Stream(ts) && acc.next < |ts|
    ensures acc.next <= r.next < |ts|
  {
    Nested(acc, ParseType(ts, acc.next))
  }

  /** A dotted path, as children of the open node. */
  function Pathed(ts: seq<Token>, acc: Listed): (r: Listed)
    requires Stream(ts) && acc.next < |ts|
    ensures acc.next <= r.next < |ts|
    ensures IsPath(ts[acc.next].kind) ==> acc.next < r.next
  {
    var first := if IsPath(ts[acc.next].kind) then Taken(ts, acc) else Faulted(acc);
    var rest := PathTail(ts, first.next);
    Listed(first.items + rest.items, rest.next, first.errors + rest.errors)
  }

  // ------------------------------------------------------------------ lines

  /** `recover_line`: everything up to the end of the line. */
  function Recovered(ts: seq<Token>, acc: Listed): (r: Listed)
    requires Stream(ts) && acc.next < |ts|
    ensures acc.next <= r.next < |ts|
    ensures !IsLineEnd(ts[acc.next].kind) ==> acc.next < r.next
    decreases |ts| - acc.next
  {
    if ts[acc.next].kind == Eof || ts[acc.next].kind == Dedent then acc
    else if ts[acc.next].kind == Newline then Taken(ts, acc)
    else Recovered(ts, Taken(ts, acc))
  }

  /** `expect_line_end`. */
  function LineTail(ts: seq<Token>, acc: Listed): (r: Listed)
    requires Stream(ts) && acc.next < |ts|
    ensures acc.next <= r.next < |ts|
    ensures !IsLineEnd(ts[acc.next].kind) ==> acc.next < r.next
  {
    if ts[acc.next].kind == Newline then Taken(ts, acc)
    else if ts[acc.next].kind == Eof || ts[acc.next].kind == Dedent then acc
    else Recovered(ts, Faulted(acc))
  }

  function Newlines(ts: seq<Token>, acc: Listed): (r: Listed)
    requires Stream(ts) && acc.next < |ts|
    ensures acc.next <= r.next < |ts|
    decreases |ts| - acc.next
  {
    if ts[acc.next].kind == Newline then Newlines(ts, Taken(ts, acc)) else acc
  }

  /** The tokens that open a body. */
  function BlockStart(ts: seq<Token>, acc: Listed): (r: Listed)
    requires Stream(ts) && acc.next < |ts|
    ensures acc.next <= r.next < |ts|
    ensures ts[acc.next].kind == Newline ==> acc.next < r.next
  {
    Wanted(ts, Wanted(ts, Wanted(ts, acc, Colon), Newline), Indent)
  }

  // ------------------------------------------------------------------ patterns

  function PatternOf(ts: seq<Token>, p: nat): (r: Parsed)
    requires Stream(ts) && p < |ts|
    ensures p <= r.next < |ts|
    decreases |ts| - p, 2
  {
    Alternatives(ts, Nested(Start(p), AtomOf(ts, p)), false)
  }

  function Alternatives(ts: seq<Token>, acc: Listed, any: bool): (r: Parsed)
    requires Stream(ts) && acc.next < |ts|
    ensures acc.next <= r.next < |ts|
    decreases |ts| - acc.next, 1
  {
    if ts[acc.next].kind == Op(Pipe) then
      var bar := Taken(ts, acc);
      Alternatives(ts, Nested(bar, AtomOf(ts, bar.next)), true)
    else Made(if any then AlternativePattern else Pattern, acc)
  }

  function AtomOf(ts: seq<Token>, p: nat): (r: Parsed)
    requires Stream(ts) && p < |ts|
    ensures p <= r.next < |ts|
    decreases |ts| - p, 1
  {
    var k := ts[p].kind;
    if k == Op(Star) then
      var star := Taken(ts, Start(p));
      Made(DereferencePattern, Nested(star, AtomOf(ts, star.next)))
    else if k == LParen then Made(TuplePattern, PatternList(ts, Taken(ts, Start(p)), RParen))
    else if IsLiteral(k) then Made(Pattern, Taken(ts, Start(p)))
    else if IsPath(k) then PathPatternOf(ts, p)
    else MadeError(if IsBoundary(k) then Faulted(Start(p)) else Taken(ts, Faulted(Start(p))))
  }

  function PathPatternOf(ts: seq<Token>, p: nat): (r: Parsed)
    requires Stream(ts) && p < |ts| && IsPath(ts[p].kind)
    ensures p <= r.next < |ts|
    decreases |ts| - p, 0
  {
    var path := Pathed(ts, Start(p));
    if ts[path.next].kind == LParen then Made(VariantPattern, PatternList(ts, Taken(ts, path), RParen))
    else if ts[path.next].kind == LBrace then Made(RecordPattern, PatternList(ts, Taken(ts, path), RBrace))
    else Made(Pattern, path)
  }

  /** Patterns up to `close`, or pattern fields if it is a brace. */
  function PatternList(ts: seq<Token>, acc: Listed, close: Kind): (r: Listed)
    requires Stream(ts) && acc.next < |ts| && close != Eof
    ensures acc.next <= r.next < |ts|
    decreases |ts| - acc.next, 5
  {
    if ts[acc.next].kind == Eof || ts[acc.next].kind == close then Wanted(ts, acc, close)
    else
      var entry := Nested(acc, EntryOf(ts, acc.next, close));
      if ts[entry.next].kind == Comma then PatternList(ts, Taken(ts, entry), close) else Wanted(ts, entry, close)
  }

  function EntryOf(ts: seq<Token>, p: nat, close: Kind): (r: Parsed)
    requires Stream(ts) && p < |ts|
    ensures p <= r.next < |ts|
    decreases |ts| - p, 4
  {
    if close == RBrace then PatternFieldOf(ts, p) else PatternOf(ts, p)
  }

  function PatternFieldOf(ts: seq<Token>, p: nat): (r: Parsed)
    requires Stream(ts) && p < |ts|
    ensures p <= r.next < |ts|
    decreases |ts| - p, 3
  {
    if ts[p].kind == DotDot then Made(PatternField, Taken(ts, Start(p)))
    else
      var name := Wanted(ts, Start(p), Identifier);
      if ts[name.next].kind == Colon then
        var colon := Taken(ts, name);
        Made(PatternField, Nested(colon, PatternOf(ts, colon.next)))
      else Made(PatternField, name)
  }

  // ------------------------------------------------------------------ bindings

  /** A name, or a tuple of them in parentheses. */
  function Named(ts: seq<Token>, acc: Listed): (r: Listed)
    requires Stream(ts) && acc.next < |ts|
    ensures acc.next <= r.next < |ts|
    decreases |ts| - acc.next, 1
  {
    if ts[acc.next].kind == LParen then Nested(acc, BindingTupleOf(ts, acc.next)) else Wanted(ts, acc, Identifier)
  }

  function BindingTupleOf(ts: seq<Token>, p: nat): (r: Parsed)
    requires Stream(ts) && p < |ts| && ts[p].kind != Eof
    ensures p < r.next < |ts|
    decreases |ts| - p, 0
  {
    Made(TuplePattern, Bindings(ts, Taken(ts, Start(p))))
  }

  function Bindings(ts: seq<Token>, acc: Listed): (r: Listed)
    requires Stream(ts) && acc.next < |ts|
    ensures acc.next <= r.next < |ts|
    decreases |ts| - acc.next, 2
  {
    if ts[acc.next].kind == Eof || ts[acc.next].kind == RParen then Wanted(ts, acc, RParen)
    else
      var entry := Nested(acc, BindingOf(ts, acc.next));
      if ts[entry.next].kind == Comma then Bindings(ts, Taken(ts, entry)) else Wanted(ts, entry, RParen)
  }

  /** A nested tuple, or a name as a pattern of its own. */
  function BindingOf(ts: seq<Token>, p: nat): (r: Parsed)
    requires Stream(ts) && p < |ts|
    ensures p <= r.next < |ts|
    decreases |ts| - p, 1
  {
    if ts[p].kind == LParen then BindingTupleOf(ts, p) else Made(Pattern, Wanted(ts, Start(p), Identifier))
  }

  function Annotated(ts: seq<Token>, acc: Listed): (r: Listed)
    requires Stream(ts) && acc.next < |ts|
    ensures acc.next <= r.next < |ts|
  {
    if ts[acc.next].kind == Colon then Typ(ts, Taken(ts, acc)) else acc
  }

  // ------------------------------------------------------------------ statements

  function LetOf(ts: seq<Token>, p: nat): (r: Parsed)
    requires Stream(ts) && p < |ts| && ts[p].kind != Eof
    ensures p < r.next < |ts|
  {
    var names := Named(ts, Taken(ts, Start(p)));
    Made(LetStatement, LineTail(ts, Exp(ts, Wanted(ts, Annotated(ts, names), Assign))))
  }

  function ReturnOf(ts: seq<Token>, p: nat): (r: Parsed)
    requires Stream(ts) && p < |ts| && ts[p].kind != Eof
    ensures p < r.next < |ts|
  {
    var word := Taken(ts, Start(p));
    Made(ReturnStatement, LineTail(ts, if IsLineEnd(ts[word.next].kind) then word else Exp(ts, word)))
  }

  function SimpleOf(ts: seq<Token>, p: nat, form: Form): (r: Parsed)
    requires Stream(ts) && p < |ts| && ts[p].kind != Eof
    ensures p < r.next < |ts|
  {
    Made(form, LineTail(ts, Taken(ts, Start(p))))
  }

  function AssignmentOf(ts: seq<Token>, p: nat): (r: Parsed)
    requires Stream(ts) && p < |ts|
    ensures p <= r.next < |ts|
  {
    var left := Exp(ts, Start(p));
    if ts[left.next].kind == Assign || ts[left.next].kind == CompoundAssign then
      Made(AssignmentStatement, LineTail(ts, Exp(ts, Taken(ts, left))))
    else Made(ExpressionStatement, LineTail(ts, left))
  }

  /** A body: what opens it, its statements, and the Dedent. */
  function BodyOf(ts: seq<Token>, p: nat): (r: Parsed)
    requires Stream(ts) && p < |ts|
    ensures p <= r.next < |ts|
    ensures ts[p].kind != Eof && ts[p].kind != Dedent ==> p < r.next
    decreases |ts| - p, 4
  {
    Body(ts, BlockStart(ts, Start(p)), false)
  }

  /** The loop over the statements of a body; `any` says whether there was one. */
  function Body(ts: seq<Token>, acc: Listed, any: bool): (r: Parsed)
    requires Stream(ts) && acc.next < |ts|
    ensures acc.next <= r.next < |ts|
    ensures ts[acc.next].kind != Eof && ts[acc.next].kind != Dedent ==> acc.next < r.next
    decreases |ts| - acc.next, 3
  {
    if ts[acc.next].kind == Eof || ts[acc.next].kind == Dedent then
      Made(Block, Wanted(ts, if any then acc else Faulted(acc), Dedent))
    else if ts[acc.next].kind == Newline then Body(ts, Taken(ts, acc), any)
    else
      var s := Nested(acc, StatementOf(ts, acc.next));
      Body(ts, if s.next == acc.next then Taken(ts, s) else s, true)
  }

  function StatementOf(ts: seq<Token>, p: nat): (r: Parsed)
    requires Stream(ts) && p < |ts| && ts[p].kind != Eof
    ensures p <= r.next < |ts|
    decreases |ts| - p, 2
  {
    var k := ts[p].kind;
    if k == Word(Let) || k == Word(Var) then LetOf(ts, p)
    else if k == Word(Return) then ReturnOf(ts, p)
    else if k == Word(Break) then SimpleOf(ts, p, BreakStatement)
    else if k == Word(Continue) then SimpleOf(ts, p, ContinueStatement)
    else if k == Word(Pass) then SimpleOf(ts, p, PassStatement)
    else if k == Word(If) then IfOf(ts, p)
    else if k == Word(Match) then MatchOf(ts, p)
    else if k == Word(For) then ForOf(ts, p)
    else if k == Word(While) then ConditionalOf(ts, p, WhileStatement)
    else if k == Word(Unsafe) && ts[p + 1].kind == Colon then UnsafeOf(ts, p)
    else AssignmentOf(ts, p)
  }

  function Bodied(ts: seq<Token>, acc: Listed): (r: Listed)
    requires Stream(ts) && acc.next < |ts|
    ensures acc.next <= r.next < |ts|
    decreases |ts| - acc.next, 5
  {
    Nested(acc, BodyOf(ts, acc.next))
  }

  function IfOf(ts: seq<Token>, p: nat): (r: Parsed)
    requires Stream(ts) && p < |ts| && ts[p].kind != Eof
    ensures p < r.next < |ts|
    decreases |ts| - p, 1
  {
    var then_ := Bodied(ts, Exp(ts, Taken(ts, Start(p))));
    if ts[then_.next].kind == Word(Else) then Made(IfStatement, Nested(then_, ElseOf(ts, then_.next)))
    else Made(IfStatement, then_)
  }

  function ElseOf(ts: seq<Token>, p: nat): (r: Parsed)
    requires Stream(ts) && p < |ts| && ts[p].kind != Eof
    ensures p < r.next < |ts|
    decreases |ts| - p, 1
  {
    Made(ElseClause, Bodied(ts, Taken(ts, Start(p))))
  }

  /** A keyword, an expression and a body. */
  function ConditionalOf(ts: seq<Token>, p: nat, form: Form): (r: Parsed)
    requires Stream(ts) && p < |ts| && ts[p].kind != Eof
    ensures p < r.next < |ts|
    decreases |ts| - p, 1
  {
    Made(form, Bodied(ts, Exp(ts, Taken(ts, Start(p)))))
  }

  function ForOf(ts: seq<Token>, p: nat): (r: Parsed)
    requires Stream(ts) && p < |ts| && ts[p].kind != Eof
    ensures p < r.next < |ts|
    decreases |ts| - p, 1
  {
    var binding := Wanted(ts, Wanted(ts, Taken(ts, Start(p)), Identifier), Word(In));
    Made(ForStatement, Bodied(ts, Exp(ts, binding)))
  }

  function UnsafeOf(ts: seq<Token>, p: nat): (r: Parsed)
    requires Stream(ts) && p < |ts| && ts[p].kind != Eof
    ensures p < r.next < |ts|
    decreases |ts| - p, 1
  {
    Made(UnsafeBlock, Bodied(ts, Taken(ts, Start(p))))
  }

  function MatchOf(ts: seq<Token>, p: nat): (r: Parsed)
    requires Stream(ts) && p < |ts| && ts[p].kind != Eof
    ensures p < r.next < |ts|
    decreases |ts| - p, 1
  {
    var scrutinee := Exp(ts, Taken(ts, Start(p)));
    Made(MatchStatement, Nested(scrutinee, ArmsOf(ts, scrutinee.next)))
  }

  /** The block of a match. */
  function ArmsOf(ts: seq<Token>, p: nat): (r: Parsed)
    requires Stream(ts) && p < |ts|
    ensures p <= r.next < |ts|
    decreases |ts| - p, 8
  {
    Arms(ts, BlockStart(ts, Start(p)), false)
  }

  /** The loop over the arms of a match: each takes at least one token. */
  function Arms(ts: seq<Token>, acc: Listed, any: bool): (r: Parsed)
    requires Stream(ts) && acc.next < |ts|
    ensures acc.next <= r.next < |ts|
    decreases |ts| - acc.next, 7
  {
    if ts[acc.next].kind == Eof || ts[acc.next].kind == Dedent then
      Made(Block, Wanted(ts, if any then acc else Faulted(acc), Dedent))
    else if ts[acc.next].kind == Newline then Arms(ts, Taken(ts, acc), any)
    else Arms(ts, Nested(acc, ArmOf(ts, acc.next)), true)
  }

  function ArmOf(ts: seq<Token>, p: nat): (r: Parsed)
    requires Stream(ts) && p < |ts| && ts[p].kind != Eof && ts[p].kind != Dedent
    ensures p < r.next < |ts|
    decreases |ts| - p, 6
  {
    Made(MatchArm, Bodied(ts, Guarded(ts, Nested(Start(p), PatternOf(ts, p)))))
  }

  function Guarded(ts: seq<Token>, acc: Listed): (r: Listed)
    requires Stream(ts) && acc.next < |ts|
    ensures acc.next <= r.next < |ts| && (acc.next < r.next || ts[acc.next].kind != Word(If))
    ensures acc.next == r.next ==> r == acc
  {
    if ts[acc.next].kind == Word(If) then Nested(acc, Made(Guard, Exp(ts, Taken(ts, Start(acc.next))))) else acc
  }

  // ------------------------------------------------------------------ items without items inside

  function TestOf(ts: seq<Token>, p: nat): (r: Parsed)
    requires Stream(ts) && p < |ts|
    ensures p <= r.next < |ts|
  {
    Made(TestItem, Bodied(ts, Wanted(ts, Wanted(ts, Start(p), Word(Test)), Identifier)))
  }

  function FieldOf(ts: seq<Token>, p: nat): (r: Parsed)
    requires Stream(ts) && p < |ts|
    ensures p <= r.next < |ts|
  {
    var name := Wanted(ts, Wanted(ts, Allowed(ts, Start(p), Word(Pub)), Identifier), Colon);
    Made(Field, LineTail(ts, Allowed(ts, Typ(ts, name), Comma)))
  }

  function GenericsOf(ts: seq<Token>, p: nat): (r: Parsed)
    requires Stream(ts) && p < |ts|
    ensures p <= r.next < |ts|
  {
    Made(GenericParameters, Generics(ts, Wanted(ts, Start(p), LBracket)))
  }

  function Generics(ts: seq<Token>, acc: Listed): (r: Listed)
    requires Stream(ts) && acc.next < |ts|
    ensures acc.next <= r.next < |ts|
    decreases |ts| - acc.next
  {
    if ts[acc.next].kind == Eof || ts[acc.next].kind == RBracket then Wanted(ts, acc, RBracket)
    else
      var entry := Nested(acc, GenericOf(ts, acc.next));
      if ts[entry.next].kind == Comma then Generics(ts, Taken(ts, entry)) else Wanted(ts, entry, RBracket)
  }

  function GenericOf(ts: seq<Token>, p: nat): (r: Parsed)
    requires Stream(ts) && p < |ts|
    ensures p <= r.next < |ts|
  {
    var name := Wanted(ts, Start(p), Identifier);
    if ts[name.next].kind == Colon then Made(GenericParameter, Bounds(ts, Typ(ts, Taken(ts, name))))
    else Made(GenericParameter, name)
  }

  /** What is added to a bound. */
  function Bounds(ts: seq<Token>, acc: Listed): (r: Listed)
    requires Stream(ts) && acc.next < |ts|
    ensures acc.next <= r.next < |ts|
    decreases |ts| - acc.next
  {
    if ts[acc.next].kind == Op(Plus) then Bounds(ts, Typ(ts, Taken(ts, acc))) else acc
  }

  function DerivesOf(ts: seq<Token>, p: nat): (r: Parsed)
    requires Stream(ts) && p < |ts|
    ensures p <= r.next < |ts|
  {
    var open := Wanted(ts, Start(p), LParen);
    Made(DeriveList, Derives(ts, if ts[open.next].kind == RParen then Faulted(open) else open))
  }

  function Derives(ts: seq<Token>, acc: Listed): (r: Listed)
    requires Stream(ts) && acc.next < |ts|
    ensures acc.next <= r.next < |ts|
    decreases |ts| - acc.next
  {
    if ts[acc.next].kind == Eof || ts[acc.next].kind == RParen then Wanted(ts, acc, RParen)
    else
      var entry := Pathed(ts, acc);
      if ts[entry.next].kind == Comma then Derives(ts, Taken(ts, entry)) else Wanted(ts, entry, RParen)
  }

  // ------------------------------------------------------------------ items

  /** Past the newlines at `p`. */
  function NewlinesEnd(ts: seq<Token>, p: nat): (q: nat)
    requires Stream(ts) && p < |ts|
    ensures p <= q < |ts|
    decreases |ts| - p
  {
    if ts[p].kind == Newline then NewlinesEnd(ts, p + 1) else p
  }

  /** Past the `pub` and `unsafe` keywords at `p`. */
  function MarksEnd(ts: seq<Token>, p: nat): (q: nat)
    requires Stream(ts) && p < |ts|
    ensures p <= q < |ts|
    decreases |ts| - p
  {
    if ts[p].kind == Word(Pub) || ts[p].kind == Word(Unsafe) then MarksEnd(ts, p + 1) else p
  }

  /** The token an item at `p` is classified by. */
  function Head(ts: seq<Token>, p: nat): Kind
    requires Stream(ts) && p < |ts|
  {
    ts[MarksEnd(ts, NewlinesEnd(ts, p))].kind
  }

  /** `unsafe` in front of `mod`, perhaps with more `pub` and `unsafe` between. */
  predicate UnsafeModule(ts: seq<Token>, p: nat)
    requires Stream(ts) && p < |ts|
  {
    ts[p].kind == Word(Unsafe) && ts[MarksEnd(ts, p)].kind == Word(Mod)
  }

  function ModuleHead(ts: seq<Token>, p: nat): (r: Listed)
    requires Stream(ts) && p < |ts|
    ensures p <= r.next < |ts|
  {
    Wanted(ts, Wanted(ts, Allowed(ts, Start(p), Word(Pub)), Word(Mod)), Identifier)
  }

  function StructHead(ts: seq<Token>, p: nat): (r: Listed)
    requires Stream(ts) && p < |ts|
    ensures p <= r.next < |ts|
  {
    var name := Wanted(ts, Wanted(ts, Allowed(ts, Start(p), Word(Pub)), Word(Struct)), Identifier);
    Derived(ts, Parametrized(ts, name))
  }

  function Parametrized(ts: seq<Token>, acc: Listed): (r: Listed)
    requires Stream(ts) && acc.next < |ts|
    ensures acc.next <= r.next < |ts|
  {
    if ts[acc.next].kind == LBracket then Nested(acc, GenericsOf(ts, acc.next)) else acc
  }

  function Derived(ts: seq<Token>, acc: Listed): (r: Listed)
    requires Stream(ts) && acc.next < |ts|
    ensures acc.next <= r.next < |ts|
  {
    if ts[acc.next].kind == LParen then Nested(acc, DerivesOf(ts, acc.next)) else acc
  }

  /** Where the body of a module begins: past the item's first token, unless that is the `unsafe` of an
      unsafe module. */
  function ModuleBody(ts: seq<Token>, p: nat): (r: Listed)
    requires Stream(ts) && p < |ts|
    ensures p <= r.next < |ts|
    ensures Head(ts, p) == Word(Mod) && !UnsafeModule(ts, p) ==> p < r.next
    ensures Head(ts, p) == Word(Mod) && UnsafeModule(ts, p) ==> p == r.next
  {
    BlockStart(ts, Start(ModuleHead(ts, p).next))
  }

  /** The item at `p`; nothing if parsing it never ends. */
  function ItemOf(ts: seq<Token>, p: nat): (r: Option<Parsed>)
    requires Stream(ts) && p < |ts|
    ensures r.Some? ==> p <= r.value.next < |ts|
    decreases |ts| - p, 3
  {
    var k := Head(ts, p);
    if k == Word(Mod) then
      if UnsafeModule(ts, p) then None
      else
        var body := Members(ts, ModuleBody(ts, p), true, false);
        if body.None? then None else Some(Made(Module, Nested(ModuleHead(ts, p), body.value)))
    else if k == Word(Struct) then
      var body := Members(ts, BlockStart(ts, Start(StructHead(ts, p).next)), false, false);
      Some(Made(StructItem, Nested(StructHead(ts, p), body.value)))
    else if k == Word(Test) then Some(TestOf(ts, p))
    else
      Some(MadeError(Recovered(ts, Faulted(Start(p)))))
  }

  /** The body of a module or struct. */
  function MembersOf(ts: seq<Token>, p: nat, inModule: bool): (r: Option<Parsed>)
    requires Stream(ts) && p < |ts|
    ensures !inModule ==> r.Some?
  {
    Members(ts, BlockStart(ts, Start(p)), inModule, false)
  }

  /** The loop over the members of a module or struct. */
  function Members(ts: seq<Token>, acc: Listed, inModule: bool, any: bool): (r: Option<Parsed>)
    requires Stream(ts) && acc.next < |ts|
    ensures r.Some? ==> acc.next <= r.value.next < |ts|
    ensures !inModule ==> r.Some?
    decreases |ts| - acc.next, if inModule then 5 else 2
  {
    if ts[acc.next].kind == Eof || ts[acc.next].kind == Dedent then
      Some(Made(Block, Wanted(ts, if any then acc else Faulted(acc), Dedent)))
    else if ts[acc.next].kind == Newline then Members(ts, Taken(ts, acc), inModule, any)
    else
      var member := MemberOf(ts, acc.next, inModule);
      if member.None? then None
      else
        var s := Nested(acc, member.value);
        Members(ts, if s.next == acc.next then Taken(ts, s) else s, inModule, true)
  }

  function MemberOf(ts: seq<Token>, p: nat, inModule: bool): (r: Option<Parsed>)
    requires Stream(ts) && p < |ts| && ts[p].kind != Eof
    ensures r.Some? ==> p <= r.value.next < |ts|
    ensures !inModule ==> r.Some?
    decreases |ts| - p, if inModule then 4 else 1
  {
    if ts[p].kind == Word(Pass) then Some(SimpleOf(ts, p, PassStatement))
    else if inModule then ItemOf(ts, p)
    else Some(FieldOf(ts, p))
  }

  /** The whole file. */
  function FileOf(ts: seq<Token>): (r: Option<Parsed>)
    requires Stream(ts)
  {
    Items(ts, Newlines(ts, Start(0)))
  }

  function Items(ts: seq<Token>, acc: Listed): (r: Option<Parsed>)
    requires Stream(ts) && acc.next < |ts|
    decreases |ts| - acc.next
  {
    if ts[acc.next].kind == Eof then
      Some(Parsed(SyntaxNode(Outer(File), acc.items + [Leaf(ts[acc.next])]), acc.next + 1, acc.errors))
    else if ts[acc.next].kind == Dedent then Items(ts, Taken(ts, Faulted(acc)))
    else
      var item := ItemOf(ts, acc.next);
      if item.None? then None
      else
        var s := Nested(acc, item.value);
        Items(ts, Newlines(ts, if s.next == acc.next then Taken(ts, Faulted(s)) else s))
  }

  // ------------------------------------------------------------------ single steps of the loops

  lemma PatternListStep(ts: seq<Token>, acc: Listed, close: Kind)
    requires Stream(ts) && acc.next < |ts| && close != Eof
    ensures PatternList(ts, acc, close) ==
            if ts[acc.next].kind == Eof || ts[acc.next].kind == close then Wanted(ts, acc, close)
            else
              var entry := Nested(acc, EntryOf(ts, acc.next, close));
              if ts[entry.next].kind == Comma then PatternList(ts, Taken(ts, entry), close)
              else Wanted(ts, entry, close)
  {
    hide EntryOf;
  }

  lemma BindingsStep(ts: seq<Token>, acc: Listed)
    requires Stream(ts) && acc.next < |ts|
    ensures Bindings(ts, acc) ==
            if ts[acc.next].kind == Eof || ts[acc.next].kind == RParen then Wanted(ts, acc, RParen)
            else
              var entry := Nested(acc, BindingOf(ts, acc.next));
              if ts[entry.next].kind == Comma then Bindings(ts, Taken(ts, entry)) else Wanted(ts, entry, RParen)
  {
    hide BindingOf;
  }

  lemma BodyStep(ts: seq<Token>, acc: Listed, any: bool)
    requires Stream(ts) && acc.next < |ts|
    ensures Body(ts, acc, any) ==
            if ts[acc.next].kind == Eof || ts[acc.next].kind == Dedent then
              Made(Block, Wanted(ts, if any then acc else Faulted(acc), Dedent))
            else if ts[acc.next].kind == Newline then Body(ts, Taken(ts, acc), any)
            else
              var s := Nested(acc, StatementOf(ts, acc.next));
              Body(ts, if s.next == acc.next then Taken(ts, s) else s, true)
  {
    hide StatementOf;
  }

  lemma ArmsStep(ts: seq<Token>, acc: Listed, any: bool)
    requires Stream(ts) && acc.next < |ts|
    ensures Arms(ts, acc, any) ==
            if ts[acc.next].kind == Eof || ts[acc.next].kind == Dedent then
              Made(Block, Wanted(ts, if any then acc else Faulted(acc), Dedent))
            else if ts[acc.next].kind == Newline then Arms(ts, Taken(ts, acc), any)
            else Arms(ts, Nested(acc, ArmOf(ts, acc.next)), true)
  {
    hide ArmOf;
  }

  lemma GenericsStep(ts: seq<Token>, acc: Listed)
    requires Stream(ts) && acc.next < |ts|
    ensures Generics(ts, acc) ==
            if ts[acc.next].kind == Eof || ts[acc.next].kind == RBracket then Wanted(ts, acc, RBracket)
            else
              var entry := Nested(acc, GenericOf(ts, acc.next));
              if ts[entry.next].kind == Comma then Generics(ts, Taken(ts, entry)) else Wanted(ts, entry, RBracket)
  {
    hide GenericOf;
  }

  lemma DerivesStep(ts: seq<Token>, acc: Listed)
    requires Stream(ts) && acc.next < |ts|
    ensures Derives(ts, acc) ==
            if ts[acc.next].kind == Eof || ts[acc.next].kind == RParen then Wanted(ts, acc, RParen)
            else
              var entry := Pathed(ts, acc);
              if ts[entry.next].kind == Comma then Derives(ts, Taken(ts, entry)) else Wanted(ts, entry, RParen)
  {
    hide Pathed;
  }

  lemma MembersStep(ts: seq<Token>, acc: Listed, inModule: bool, any: bool)
    requires Stream(ts) && acc.next < |ts|
    ensures Members(ts, acc, inModule, any) ==
            if ts[acc.next].kind == Eof || ts[acc.next].kind == Dedent then
              Some(Made(Block, Wanted(ts, if any then acc else Faulted(acc), Dedent)))
            else if ts[acc.next].kind == Newline then Members(ts, Taken(ts, acc), inModule, any)
            else
              var member := MemberOf(ts, acc.next, inModule);
              if member.None? then None
              else
                var s := Nested(acc, member.value);
                Members(ts, if s.next == acc.next then Taken(ts, s) else s, inModule, true)
  {
    hide MemberOf;
  }

  lemma FileStep(ts: seq<Token>, acc: Listed)
    requires Stream(ts) && acc.next < |ts|
    ensures Items(ts, acc) ==
            if ts[acc.next].kind == Eof then
              Some(Parsed(SyntaxNode(Outer(File), acc.items + [Leaf(ts[acc.next])]), acc.next + 1, acc.errors))
            else if ts[acc.next].kind == Dedent then Items(ts, Taken(ts, Faulted(acc)))
            else
              var item := ItemOf(ts, acc.next);
              if item.None? then None
              else
                var s := Nested(acc, item.value);
                Items(ts, Newlines(ts, if s.next == acc.next then Taken(ts, Faulted(s)) else s))
  {
    hide ItemOf, Newlines;
  }

  lemma ModuleBodyStart(ts: seq<Token>, p: nat)
    requires Stream(ts) && p < |ts|
    ensures ModuleBody(ts, p) == BlockStart(ts, Start(ModuleHead(ts, p).next))
  {
  }

  /** A module is its head and its body. */
  lemma ModuleMade(ts: seq<Token>, p: nat)
    requires Stream(ts) && p < |ts| && Head(ts, p) == Word(Mod) && ItemOf(ts, p).Some?
    ensures var body := MembersOf(ts, ModuleHead(ts, p).next, true);
            body.Some? && ItemOf(ts, p) == Some(Made(Module, Nested(ModuleHead(ts, p), body.value)))
  {
    hide Members, UnsafeModule, ModuleHead, Head;
  }

  lemma StructMade(ts: seq<Token>, p: nat)
    requires Stream(ts) && p < |ts| && Head(ts, p) == Word(Struct)
    ensures var body := MembersOf(ts, StructHead(ts, p).next, false).value;
            ItemOf(ts, p) == Some(Made(StructItem, Nested(StructHead(ts, p), body)))
  {
    hide Members, StructHead, Head;
  }
}
