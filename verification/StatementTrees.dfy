/** The trees of statements, items and files the grammar means (src/parser.rs:141-166, 273-372, 572-625,
    814-1215, 1800-2022): the form of a node, its leading keyword, its children and their order.
 */
module StatementTrees {
  import opened Pratt
  import opened PrattTrees
  import opened Statements
  import opened Syntax
  import opened Wrappers

  /** What a comma-separated list holds, and the token that closes it. */
  datatype Listing = Patterns | PatternFields | Names | Parameters {
    function Close(): Kind {
      match this
      case Patterns | Names => RParen
      case PatternFields => RBrace
      case Parameters => RBracket
    }
  }

  /** What a block holds. */
  datatype Content = OfStatements | OfArms | OfItems | OfFields

  predicate IsName(e: Element) {
    e.Leaf? && IsPath(e.token.kind)
  }

  predicate IsForm(e: Element, form: Form) {
    e.Node? && e.node.kind == Outer(form)
  }

  // ------------------------------------------------------------------ patterns

  /** Alternatives separated by bars. */
  ghost predicate WellPattern(e: Element)
    decreases e, 3
  {
    && e.Node? && e.node.children != []
    && IsForm(e, if |e.node.children| == 1 then Pattern else AlternativePattern)
    && WellAtom(e.node.children[0]) && WellAlternatives(e.node.children[1..])
  }

  ghost predicate WellAlternatives(cs: seq<Element>)
    decreases cs, 4
  {
    cs == [] || (|cs| >= 2 && IsLeaf(cs[0], Op(Pipe)) && WellAtom(cs[1]) && WellAlternatives(cs[2..]))
  }

  ghost predicate WellAtom(e: Element)
    decreases e, 2
  {
    && e.Node? && e.node.kind.Outer? && e.node.children != []
    && var cs := e.node.children;
       match e.node.kind.form
       case DereferencePattern => |cs| == 2 && IsLeaf(cs[0], Op(Star)) && WellAtom(cs[1])
       case TuplePattern => IsLeaf(cs[0], LParen) && WellListed(cs[1..], Patterns)
       case Pattern =>
         || (|cs| == 1 && cs[0].Leaf? && IsLiteral(cs[0].token.kind))
         || (IsName(cs[0]) && WellPath(cs[1..]))
       case VariantPattern => IsName(cs[0]) && WellApplied(cs[1..], LParen, Patterns)
       case RecordPattern => IsName(cs[0]) && WellApplied(cs[1..], LBrace, PatternFields)
       case _ => false
  }

  /** The rest of a path, then a list. */
  ghost predicate WellApplied(cs: seq<Element>, open: Kind, what: Listing)
    decreases cs, 5
  {
    && cs != []
    && if IsLeaf(cs[0], Dot) then |cs| >= 2 && IsLeaf(cs[1], Identifier) && WellApplied(cs[2..], open, what)
       else IsLeaf(cs[0], open) && WellListed(cs[1..], what)
  }

  /** Entries separated by commas, perhaps none, perhaps with a comma at the end, then the closing token. */
  ghost predicate WellListed(cs: seq<Element>, what: Listing)
    decreases cs, 5
  {
    if |cs| <= 1 then |cs| == 1 && IsLeaf(cs[0], what.Close())
    else
      && WellEntryOf(cs[0], what)
      && if |cs| == 2 then IsLeaf(cs[1], what.Close()) else IsLeaf(cs[1], Comma) && WellListed(cs[2..], what)
  }

  ghost predicate WellEntryOf(e: Element, what: Listing)
    decreases e, 4
  {
    match what
    case Patterns => WellPattern(e)
    case PatternFields => WellPatternField(e)
    case Names =>
      || WellTupleOfNames(e)
      || (IsForm(e, Pattern) && |e.node.children| == 1 && IsLeaf(e.node.children[0], Identifier))
    case Parameters => WellParameter(e)
  }

  /** `..`, `name` or `name: pattern`. */
  ghost predicate WellPatternField(e: Element)
    decreases e, 3
  {
    && IsForm(e, PatternField)
    && var cs := e.node.children;
       || (|cs| == 1 && (IsLeaf(cs[0], DotDot) || IsLeaf(cs[0], Identifier)))
       || (|cs| == 3 && IsLeaf(cs[0], Identifier) && IsLeaf(cs[1], Colon) && WellPattern(cs[2]))
  }

  /** Names in parentheses. */
  ghost predicate WellTupleOfNames(e: Element)
    decreases e, 3
  {
    && IsForm(e, TuplePattern) && e.node.children != [] && IsLeaf(e.node.children[0], LParen)
    && WellListed(e.node.children[1..], Names)
  }

  /** `name` or `name: bound + ...`. */
  ghost predicate WellParameter(e: Element)
    decreases e, 3
  {
    && IsForm(e, GenericParameter)
    && var cs := e.node.children;
       || (|cs| == 1 && IsLeaf(cs[0], Identifier))
       || (|cs| >= 3 && IsLeaf(cs[0], Identifier) && IsLeaf(cs[1], Colon) && WellEntry(cs[2], Types)
           && WellBounds(cs[3..]))
  }

  ghost predicate WellBounds(cs: seq<Element>)
    decreases cs, 0
  {
    cs == [] || (|cs| >= 2 && IsLeaf(cs[0], Op(Plus)) && WellEntry(cs[1], Types) && WellBounds(cs[2..]))
  }

  // ------------------------------------------------------------------ lines

  /** The children without the Newline that ends a line, if it is there. */
  function Trimmed(cs: seq<Element>): seq<Element> {
    if cs != [] && IsLeaf(cs[|cs| - 1], Newline) then cs[..|cs| - 1] else cs
  }

  /** The children without the `pub` in front, if it is there. */
  function Bare(cs: seq<Element>): seq<Element> {
    if cs != [] && IsLeaf(cs[0], Word(Pub)) then cs[1..] else cs
  }

  predicate IsLine(kind: NodeKind) {
    && kind.Outer?
    && match kind.form
       case LetStatement | ReturnStatement | BreakStatement | ContinueStatement | PassStatement => true
       case AssignmentStatement | ExpressionStatement | Field => true
       case _ => false
  }

  /** A line without its Newline. */
  predicate Unended(e: Element) {
    e.Node? && IsLine(e.node.kind) && Trimmed(e.node.children) == e.node.children
  }

  /** `let` or `var`, what is bound, perhaps its type, and the value. */
  ghost predicate WellLet(cs: seq<Element>) {
    && (|cs| == 4 || |cs| == 6)
    && (IsLeaf(cs[0], Word(Let)) || IsLeaf(cs[0], Word(Var)))
    && (IsLeaf(cs[1], Identifier) || WellTupleOfNames(cs[1]))
    && (|cs| == 6 ==> IsLeaf(cs[2], Colon) && WellEntry(cs[3], Types))
    && IsLeaf(cs[|cs| - 2], Assign) && WellEntry(cs[|cs| - 1], Exprs)
  }

  ghost predicate WellLine(form: Form, cs: seq<Element>) {
    match form
    case LetStatement => WellLet(cs)
    case ReturnStatement => (|cs| == 1 || (|cs| == 2 && WellEntry(cs[1], Exprs))) && IsLeaf(cs[0], Word(Return))
    case BreakStatement => |cs| == 1 && IsLeaf(cs[0], Word(Break))
    case ContinueStatement => |cs| == 1 && IsLeaf(cs[0], Word(Continue))
    case PassStatement => |cs| == 1 && IsLeaf(cs[0], Word(Pass))
    case AssignmentStatement =>
      && |cs| == 3 && WellEntry(cs[0], Exprs) && (IsLeaf(cs[1], Assign) || IsLeaf(cs[1], CompoundAssign))
      && WellEntry(cs[2], Exprs)
    case ExpressionStatement => |cs| == 1 && WellEntry(cs[0], Exprs)
    case _ => false
  }

  // ------------------------------------------------------------------ statements

  ghost predicate WellStatement(e: Element)
    decreases e, 1
  {
    && e.Node? && e.node.kind.Outer?
    && var cs := e.node.children;
       match e.node.kind.form
       case IfStatement =>
         && (|cs| == 3 || (|cs| == 4 && WellElse(cs[3])))
         && IsLeaf(cs[0], Word(If)) && WellEntry(cs[1], Exprs) && WellBlock(cs[2], OfStatements)
       case WhileStatement =>
         |cs| == 3 && IsLeaf(cs[0], Word(While)) && WellEntry(cs[1], Exprs) && WellBlock(cs[2], OfStatements)
       case MatchStatement =>
         |cs| == 3 && IsLeaf(cs[0], Word(Match)) && WellEntry(cs[1], Exprs) && WellBlock(cs[2], OfArms)
       case ForStatement =>
         && |cs| == 5 && IsLeaf(cs[0], Word(For)) && IsLeaf(cs[1], Identifier) && IsLeaf(cs[2], Word(In))
         && WellEntry(cs[3], Exprs) && WellBlock(cs[4], OfStatements)
       case UnsafeBlock => |cs| == 2 && IsLeaf(cs[0], Word(Unsafe)) && WellBlock(cs[1], OfStatements)
       case _ => WellLine(e.node.kind.form, Trimmed(cs))
  }

  ghost predicate WellElse(e: Element)
    decreases e, 1
  {
    && IsForm(e, ElseClause) && |e.node.children| == 2
    && IsLeaf(e.node.children[0], Word(Else)) && WellBlock(e.node.children[1], OfStatements)
  }

  /** A pattern, perhaps a guard, and the body. */
  ghost predicate WellArm(e: Element)
    decreases e, 1
  {
    && IsForm(e, MatchArm)
    && var cs := e.node.children;
       && (|cs| == 2 || (|cs| == 3 && WellGuard(cs[1])))
       && WellPattern(cs[0]) && WellBlock(cs[|cs| - 1], OfStatements)
  }

  ghost predicate WellGuard(e: Element) {
    && IsForm(e, Guard) && |e.node.children| == 2
    && IsLeaf(e.node.children[0], Word(If)) && WellEntry(e.node.children[1], Exprs)
  }

  /** What opens a body, at least one thing in it, and the Dedent. */
  ghost predicate WellBlock(e: Element, what: Content)
    decreases e, 0
  {
    && IsForm(e, Block)
    && var cs := e.node.children;
       && |cs| > 3 && IsLeaf(cs[0], Colon) && IsLeaf(cs[1], Newline) && IsLeaf(cs[2], Indent)
       && WellBody(cs[3..], what, false)
  }

  /** Only what stands directly before the Dedent may be a line without its Newline. */
  ghost predicate WellBody(cs: seq<Element>, what: Content, any: bool)
    decreases cs, 3
  {
    if |cs| <= 1 then any && |cs| == 1 && IsLeaf(cs[0], Dedent)
    else if cs[0].Leaf? then IsLeaf(cs[0], Newline) && WellBody(cs[1..], what, any)
    else WellPart(cs[0], what) && (Unended(cs[0]) ==> IsLeaf(cs[1], Dedent)) && WellBody(cs[1..], what, true)
  }

  ghost predicate WellPart(e: Element, what: Content)
    decreases e, 2
  {
    match what
    case OfStatements => WellStatement(e)
    case OfArms => WellArm(e)
    case OfItems => WellPass(e) || WellItem(e)
    case OfFields => WellPass(e) || WellField(e)
  }

  ghost predicate WellPass(e: Element) {
    IsForm(e, PassStatement) && WellLine(PassStatement, Trimmed(e.node.children))
  }

  // ------------------------------------------------------------------ items

  /** Perhaps `pub`, the name and the type, perhaps a comma. */
  ghost predicate WellField(e: Element) {
    && IsForm(e, Field)
    && var cs := Bare(Trimmed(e.node.children));
       && (|cs| == 3 || (|cs| == 4 && IsLeaf(cs[3], Comma)))
       && IsLeaf(cs[0], Identifier) && IsLeaf(cs[1], Colon) && WellEntry(cs[2], Types)
  }

  ghost predicate WellItem(e: Element)
    decreases e, 1
  {
    && e.Node? && e.node.kind.Outer? && e.node.children != []
    && var (all, last) := (e.node.children, e.node.children[|e.node.children| - 1]);
       var cs := Bare(all);
       match e.node.kind.form
       case Module =>
         |cs| == 3 && IsLeaf(cs[0], Word(Mod)) && IsLeaf(cs[1], Identifier) && WellBlock(last, OfItems)
       case StructItem =>
         && 3 <= |cs| && IsLeaf(cs[0], Word(Struct)) && IsLeaf(cs[1], Identifier)
         && WellOptions(cs[2..|cs| - 1]) && WellBlock(last, OfFields)
       case TestItem =>
         |all| == 3 && IsLeaf(all[0], Word(Test)) && IsLeaf(all[1], Identifier) && WellBlock(last, OfStatements)
       case _ => false
  }

  /** Perhaps generic parameters, perhaps a list of derives. */
  ghost predicate WellOptions(cs: seq<Element>) {
    || cs == []
    || (|cs| == 1 && (WellGenerics(cs[0]) || WellDerives(cs[0])))
    || (|cs| == 2 && WellGenerics(cs[0]) && WellDerives(cs[1]))
  }

  ghost predicate WellGenerics(e: Element) {
    && IsForm(e, GenericParameters) && e.node.children != [] && IsLeaf(e.node.children[0], LBracket)
    && WellListed(e.node.children[1..], Parameters)
  }

  ghost predicate WellDerives(e: Element) {
    && IsForm(e, DeriveList) && |e.node.children| >= 2 && IsLeaf(e.node.children[0], LParen)
    && IsName(e.node.children[1]) && WellDerived(e.node.children[2..])
  }

  /** After the first name of a path: the rest of it, and more paths or the closing parenthesis. */
  ghost predicate WellDerived(cs: seq<Element>)
    decreases cs
  {
    if |cs| <= 1 then |cs| == 1 && IsLeaf(cs[0], RParen)
    else if IsLeaf(cs[0], Dot) then IsLeaf(cs[1], Identifier) && WellDerived(cs[2..])
    else
      && IsLeaf(cs[0], Comma)
      && if |cs| == 2 then IsLeaf(cs[1], RParen) else IsName(cs[1]) && WellDerived(cs[2..])
  }

  /** Items and Newlines up to the end of the stream. */
  ghost predicate WellFile(n: SyntaxNode) {
    n.kind == Outer(File) && WellItemsOf(n.children)
  }

  ghost predicate WellItemsOf(cs: seq<Element>)
    decreases cs
  {
    if |cs| <= 1 then |cs| == 1 && IsLeaf(cs[0], Eof)
    else (IsLeaf(cs[0], Newline) || WellItem(cs[0])) && WellItemsOf(cs[1..])
  }

  // ------------------------------------------------------------------ the parser's lists and blocks

  /** One entry of a list. */
  ghost function EntryParsed(ts: seq<Token>, p: nat, what: Listing): (r: Parsed)
    requires Stream(ts) && p < |ts|
    ensures p <= r.next < |ts|
  {
    match what
    case Patterns | PatternFields => EntryOf(ts, p, what.Close())
    case Names => BindingOf(ts, p)
    case Parameters => GenericOf(ts, p)
  }

  ghost function ListParsed(ts: seq<Token>, acc: Listed, what: Listing): (r: Listed)
    requires Stream(ts) && acc.next < |ts|
    ensures acc.next <= r.next < |ts|
  {
    match what
    case Patterns | PatternFields => PatternList(ts, acc, what.Close())
    case Names => Bindings(ts, acc)
    case Parameters => Generics(ts, acc)
  }

  lemma ListStep(ts: seq<Token>, acc: Listed, what: Listing)
    requires Stream(ts) && acc.next < |ts|
    ensures ListParsed(ts, acc, what) ==
            if ts[acc.next].kind == Eof || ts[acc.next].kind == what.Close() then Wanted(ts, acc, what.Close())
            else
              var entry := Nested(acc, EntryParsed(ts, acc.next, what));
              if ts[entry.next].kind == Comma then ListParsed(ts, Taken(ts, entry), what)
              else Wanted(ts, entry, what.Close())
  {
    hide PatternList, Bindings, Generics, EntryOf, BindingOf, GenericOf;
    match what
    case Patterns | PatternFields => PatternListStep(ts, acc, what.Close());
    case Names => BindingsStep(ts, acc);
    case Parameters => GenericsStep(ts, acc);
  }

  /** What is parsed inside a block of each content. */
  ghost function PartOf(ts: seq<Token>, p: nat, what: Content): (r: Option<Parsed>)
    requires Stream(ts) && p < |ts| && ts[p].kind != Eof && ts[p].kind != Dedent
    ensures r.Some? ==> p <= r.value.next < |ts|
  {
    match what
    case OfStatements => Some(StatementOf(ts, p))
    case OfArms => Some(ArmOf(ts, p))
    case OfItems => MemberOf(ts, p, true)
    case OfFields => MemberOf(ts, p, false)
  }

  ghost function LoopOf(ts: seq<Token>, acc: Listed, what: Content, any: bool): (r: Option<Parsed>)
    requires Stream(ts) && acc.next < |ts|
    ensures r.Some? ==> acc.next <= r.value.next < |ts|
  {
    match what
    case OfStatements => Some(Body(ts, acc, any))
    case OfArms => Some(Arms(ts, acc, any))
    case OfItems => Members(ts, acc, true, any)
    case OfFields => Members(ts, acc, false, any)
  }

  ghost function BlockOf(ts: seq<Token>, p: nat, what: Content): (r: Option<Parsed>)
    requires Stream(ts) && p < |ts|
    ensures r.Some? ==> p <= r.value.next < |ts|
  {
    LoopOf(ts, BlockStart(ts, Start(p)), what, false)
  }

  /** The three loops take the same step, the arms without a check for progress because they need none. */
  lemma LoopStep(ts: seq<Token>, acc: Listed, what: Content, any: bool)
    requires Stream(ts) && acc.next < |ts|
    ensures LoopOf(ts, acc, what, any) ==
            if ts[acc.next].kind == Eof || ts[acc.next].kind == Dedent then
              Some(Made(Block, Wanted(ts, if any then acc else Faulted(acc), Dedent)))
            else if ts[acc.next].kind == Newline then LoopOf(ts, Taken(ts, acc), what, any)
            else
              var part := PartOf(ts, acc.next, what);
              if part.None? then None
              else
                var s := Nested(acc, part.value);
                LoopOf(ts, if s.next == acc.next then Taken(ts, s) else s, what, true)
  {
    hide Body, Arms, Members, StatementOf, ArmOf, MemberOf;
    match what
    case OfStatements => BodyStep(ts, acc, any);
    case OfArms => ArmsStep(ts, acc, any);
    case OfItems => MembersStep(ts, acc, true, any);
    case OfFields => MembersStep(ts, acc, false, any);
  }
}
