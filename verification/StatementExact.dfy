/** Parsing that reports nothing yields a well-formed tree.
 */
module StatementExact {
  import opened Pratt
  import opened PrattExact
  import opened PrattLossless
  import opened PrattRoundTrip
  import opened PrattTrees
  import opened StatementRoundTrip
  import opened StatementTrees
  import opened Statements
  import opened Syntax
  import opened Wrappers

  // ------------------------------------------------------------------ single children

  lemma WantedExact(ts: seq<Token>, acc: Listed, k: Kind)
    requires Stream(ts) && acc.next < |ts| && k != Eof && Wanted(ts, acc, k).errors == []
    ensures acc.errors == [] && ts[acc.next].kind == k && Wanted(ts, acc, k) == Taken(ts, acc)
  {
  }

  /** An expression takes at least one token. */
  lemma ExpExact(ts: seq<Token>, acc: Listed)
    requires Stream(ts) && acc.next < |ts| && Exp(ts, acc).errors == []
    ensures acc.errors == [] && acc.next < Exp(ts, acc).next
    ensures var e := Node(ParseBp(ts, acc.next, 0).node);
            WellEntry(e, Exprs) && Exp(ts, acc).items == acc.items + [e]
  {
    hide ParseBp, Well, Leaves, Level, Follow, Stops;
    BpExact(ts, acc.next, 0);
    BpLossless(ts, acc.next, 0);
    ExprStarts(ParseBp(ts, acc.next, 0).node);
  }

  lemma ExpLast(ts: seq<Token>, acc: Listed)
    requires Stream(ts) && acc.next < |ts|
    ensures var cs := Exp(ts, acc).items; cs != [] && cs[|cs| - 1].Node?
  {
    hide ParseBp;
  }

  lemma TypExact(ts: seq<Token>, acc: Listed)
    requires Stream(ts) && acc.next < |ts| && Typ(ts, acc).errors == []
    ensures acc.errors == []
    ensures var e := Node(ParseType(ts, acc.next).node);
            WellEntry(e, Types) && Typ(ts, acc).items == acc.items + [e]
  {
    hide ParseType, WellType;
    TypeExact(ts, acc.next);
  }

  lemma PathedExact(ts: seq<Token>, acc: Listed)
    requires Stream(ts) && acc.next < |ts| && Pathed(ts, acc).errors == []
    ensures acc.errors == [] && IsPath(ts[acc.next].kind) && acc.next < Pathed(ts, acc).next
    ensures var path := PathTail(ts, acc.next + 1).items;
            WellPath(path) && Pathed(ts, acc).items == acc.items + ([Leaf(ts[acc.next])] + path)
  {
    hide PathTail, WellPath, Pathed;
    PathedStep(ts, acc);
    PathTailExact(ts, acc.next + 1);
  }

  lemma PathedStep(ts: seq<Token>, acc: Listed)
    requires Stream(ts) && acc.next < |ts|
    ensures Pathed(ts, acc).errors == [] ==> IsPath(ts[acc.next].kind)
    ensures IsPath(ts[acc.next].kind) ==>
              var rest := PathTail(ts, acc.next + 1);
              Pathed(ts, acc) == Listed(acc.items + ([Leaf(ts[acc.next])] + rest.items), rest.next,
                                        acc.errors + rest.errors)
  {
    hide PathTail, Taken, Faulted;
    if IsPath(ts[acc.next].kind) {
      TakenMeans(ts, acc);
      Regroup(acc.items, [Leaf(ts[acc.next])], PathTail(ts, acc.next + 1).items);
    } else {
      FaultedMeans(acc);
    }
  }

  lemma TakenMeans(ts: seq<Token>, acc: Listed)
    requires Stream(ts) && acc.next < |ts| && ts[acc.next].kind != Eof
    ensures Taken(ts, acc) == Listed(acc.items + [Leaf(ts[acc.next])], acc.next + 1, acc.errors)
  {
  }

  lemma FaultedMeans(acc: Listed)
    ensures Faulted(acc).errors != []
  {
  }

  lemma Regroup(a: seq<Element>, b: seq<Element>, c: seq<Element>)
    ensures a + b + c == a + (b + c)
  {
  }

  /** The end of a line: a Newline, or nothing where the block or the stream ends. */
  lemma LineExact(ts: seq<Token>, acc: Listed, form: Form)
    requires Stream(ts) && acc.next < |ts| && LineTail(ts, acc).errors == []
    requires acc.items != [] && !IsLeaf(acc.items[|acc.items| - 1], Newline)
    ensures acc.errors == [] && Trimmed(LineTail(ts, acc).items) == acc.items
    ensures Lined(ts, Made(form, LineTail(ts, acc)))
  {
    hide Recovered;
    RecoveredErrors(ts, Faulted(acc));
    if ts[acc.next].kind == Newline {
      assert LineTail(ts, acc).items[..|acc.items|] == acc.items;
    }
  }

  /** Recovery takes everything up to the first end of a line, and a Newline that ends it. */
  lemma {:induction false} RecoveredLine(ts: seq<Token>, acc: Listed) returns (end: nat)
    requires Stream(ts) && acc.next < |ts|
    ensures acc.next <= end < |ts| && IsLineEnd(ts[end].kind)
    ensures forall i :: acc.next <= i < end ==> !IsLineEnd(ts[i].kind)
    ensures Recovered(ts, acc).next == end + if ts[end].kind == Newline then 1 else 0
    decreases |ts| - acc.next
  {
    if IsLineEnd(ts[acc.next].kind) {
      end := acc.next;
    } else {
      end := RecoveredLine(ts, Taken(ts, acc));
    }
  }

  lemma {:induction false} RecoveredErrors(ts: seq<Token>, acc: Listed)
    requires Stream(ts) && acc.next < |ts|
    ensures Recovered(ts, acc).errors == acc.errors
    decreases |ts| - acc.next
  {
    if !IsLineEnd(ts[acc.next].kind) {
      RecoveredErrors(ts, Taken(ts, acc));
    }
  }

  /** A line without its Newline stands where the block or the stream ends. */
  ghost predicate Lined(ts: seq<Token>, r: Parsed) {
    r.next < |ts| && (Unended(Node(r.node)) ==> ts[r.next].kind == Dedent || ts[r.next].kind == Eof)
  }

  // ------------------------------------------------------------------ patterns

  lemma {:induction false} PatternExact(ts: seq<Token>, p: nat)
    requires Stream(ts) && p < |ts| && PatternOf(ts, p).errors == []
    ensures WellPattern(Node(PatternOf(ts, p).node)) && p < PatternOf(ts, p).next
    decreases |ts| - p, 2
  {
    hide AtomOf, Alternatives, WellAtom, WellAlternatives;
    var atom := AtomOf(ts, p);
    var acc := Nested(Start(p), atom);
    AlternativesExact(ts, acc, false);
    AtomExactly(ts, p);
    var cs := PatternOf(ts, p).node.children;
    assert acc.items == [Node(atom.node)];
    assert cs[0] == acc.items[0];
  }

  lemma {:induction false} AlternativesExact(ts: seq<Token>, acc: Listed, any: bool)
    requires Stream(ts) && acc.next < |ts| && Alternatives(ts, acc, any).errors == []
    ensures acc.errors == []
    ensures var (n, k) := (Alternatives(ts, acc, any).node, |acc.items|);
            && k <= |n.children| && n.children[..k] == acc.items && WellAlternatives(n.children[k..])
            && n.kind == Outer(if !any && |n.children| == k then Pattern else AlternativePattern)
    decreases |ts| - acc.next, 1
  {
    hide AtomOf, WellAtom, WellAlternatives;
    var n := Alternatives(ts, acc, any).node;
    if ts[acc.next].kind == Op(Pipe) {
      var bar := Taken(ts, acc);
      var atom := AtomOf(ts, bar.next);
      var next := Nested(bar, atom);
      AlternativesExact(ts, next, true);
      AtomExactly(ts, bar.next);
      var k := |acc.items|;
      var cs := n.children;
      assert next.items == acc.items + [Leaf(ts[acc.next]), Node(atom.node)];
      assert cs[..k] == cs[..k + 2][..k];
      assert cs[k] == next.items[k] && cs[k + 1] == next.items[k + 1];
      AlternativesJoin(cs[k..]);
      assert cs[k..][2..] == cs[k + 2..];
    } else {
      AlternativesNone(n.children[|acc.items|..]);
    }
  }

  lemma AlternativesNone(cs: seq<Element>)
    requires cs == []
    ensures WellAlternatives(cs)
  {
  }

  lemma AlternativesJoin(cs: seq<Element>)
    ensures |cs| >= 2 && IsLeaf(cs[0], Op(Pipe)) && WellAtom(cs[1]) && WellAlternatives(cs[2..])
            ==> WellAlternatives(cs)
  {
  }

  lemma {:induction false} AtomExactly(ts: seq<Token>, p: nat)
    requires Stream(ts) && p < |ts| && AtomOf(ts, p).errors == []
    ensures WellAtom(Node(AtomOf(ts, p).node)) && p < AtomOf(ts, p).next
    decreases |ts| - p, 1
  {
    hide PatternList, PathPatternOf, WellListed, WellApplied, WellPath;
    var k := ts[p].kind;
    if k == Op(Star) {
      AtomExactly(ts, p + 1);
    } else if k == LParen {
      ListExact(ts, Taken(ts, Start(p)), Patterns);
    } else if !IsLiteral(k) {
      PathPatternExact(ts, p);
    }
  }

  lemma {:induction false} PathPatternExact(ts: seq<Token>, p: nat)
    requires Stream(ts) && p < |ts| && IsPath(ts[p].kind) && PathPatternOf(ts, p).errors == []
    ensures WellAtom(Node(PathPatternOf(ts, p).node)) && p < PathPatternOf(ts, p).next
    decreases |ts| - p, 0
  {
    hide PatternList, Pathed, WellListed, WellAtom, WellPath, PathTail;
    var path := Pathed(ts, Start(p));
    var k := ts[path.next].kind;
    if k == LParen || k == LBrace {
      var what := if k == LParen then Patterns else PatternFields;
      ListExact(ts, Taken(ts, path), what);
      PathedExact(ts, Start(p));
      AppliedMade(ts[p], PathTail(ts, p + 1).items, ts[path.next], PathPatternOf(ts, p).node, what);
    } else {
      PathedExact(ts, Start(p));
      NamedMade(ts[p], PathTail(ts, p + 1).items);
    }
  }

  lemma NamedMade(name: Token, path: seq<Element>)
    requires IsPath(name.kind) && WellPath(path)
    ensures WellAtom(Node(SyntaxNode(Outer(Pattern), [] + ([Leaf(name)] + path))))
  {
    hide WellPath;
    assert ([] + ([Leaf(name)] + path))[1..] == path;
  }

  lemma AppliedMade(name: Token, path: seq<Element>, open: Token, n: SyntaxNode, what: Listing)
    requires IsPath(name.kind) && WellPath(path) && (what == Patterns || what == PatternFields)
    requires open.kind == if what == Patterns then LParen else LBrace
    requires n.kind == Outer(if what == Patterns then VariantPattern else RecordPattern)
    requires var head := [Leaf(name)] + path + [Leaf(open)];
             |n.children| >= |head| && n.children[..|head|] == head && WellListed(n.children[|head|..], what)
    ensures WellAtom(Node(n))
  {
    hide WellListed, WellApplied, WellPath;
    var cs := n.children;
    var list := cs[|path| + 2..];
    assert cs == [Leaf(name)] + path + [Leaf(open)] + list;
    assert cs[1..] == path + ([Leaf(open)] + list);
    assert ([Leaf(open)] + list)[1..] == list;
    AppliedJoin(path, [Leaf(open)] + list, open.kind, what);
  }

  lemma {:induction false} AppliedJoin(path: seq<Element>, rest: seq<Element>, open: Kind, what: Listing)
    requires WellPath(path) && rest != [] && IsLeaf(rest[0], open) && open != Dot && WellListed(rest[1..], what)
    ensures WellApplied(path + rest, open, what)
    decreases path
  {
    hide WellListed;
    if path == [] {
      assert path + rest == rest;
    } else {
      AppliedJoin(path[2..], rest, open, what);
      assert (path + rest)[2..] == path[2..] + rest;
    }
  }

  // ------------------------------------------------------------------ lists

  lemma {:induction false} ListExact(ts: seq<Token>, acc: Listed, what: Listing)
    requires Stream(ts) && acc.next < |ts| && ListParsed(ts, acc, what).errors == []
    ensures acc.errors == []
    ensures var (cs, k) := (ListParsed(ts, acc, what).items, |acc.items|);
            k <= |cs| && cs[..k] == acc.items && WellListed(cs[k..], what)
    decreases |ts| - acc.next, 5
  {
    hide ListParsed, EntryParsed, WellEntryOf, WellListed;
    ListStep(ts, acc, what);
    var (cs, k, close) := (ListParsed(ts, acc, what).items, |acc.items|, what.Close());
    if ts[acc.next].kind == Eof || ts[acc.next].kind == close {
      WantedExact(ts, acc, close);
      assert cs[..k] == acc.items && cs[k..] == [Leaf(ts[acc.next])];
      ListedEnd(cs[k..], what);
    } else {
      var x := EntryParsed(ts, acc.next, what);
      var entry := Nested(acc, x);
      if ts[entry.next].kind == Comma {
        var comma := Taken(ts, entry);
        ListExact(ts, comma, what);
        assert cs[..k] == cs[..k + 2][..k];
        assert cs[k] == comma.items[k] && cs[k + 1] == comma.items[k + 1];
        assert cs[k..][2..] == cs[k + 2..];
      } else {
        WantedExact(ts, entry, close);
        assert cs == acc.items + [Node(x.node), Leaf(ts[entry.next])];
      }
      EntryExactly(ts, acc.next, what);
      ListedJoin(cs[k..], what);
    }
  }

  lemma ListedEnd(cs: seq<Element>, what: Listing)
    ensures |cs| == 1 && IsLeaf(cs[0], what.Close()) ==> WellListed(cs, what)
  {
  }

  lemma ListedJoin(cs: seq<Element>, what: Listing)
    requires |cs| >= 2 && WellEntryOf(cs[0], what)
    requires (|cs| == 2 && IsLeaf(cs[1], what.Close())) || (IsLeaf(cs[1], Comma) && WellListed(cs[2..], what))
    ensures WellListed(cs, what)
  {
    hide WellEntryOf;
  }

  lemma {:induction false} EntryExactly(ts: seq<Token>, p: nat, what: Listing)
    requires Stream(ts) && p < |ts| && EntryParsed(ts, p, what).errors == []
    ensures WellEntryOf(Node(EntryParsed(ts, p, what).node), what)
    decreases |ts| - p, 4
  {
    hide PatternOf, PatternFieldOf, BindingTupleOf, GenericOf, WellPattern, WellPatternField, WellTupleOfNames,
      WellParameter;
    match what
    case Patterns => PatternExact(ts, p);
    case PatternFields => PatternFieldExact(ts, p);
    case Names =>
      if ts[p].kind == LParen {
        TupleOfNamesExact(ts, p);
      }
    case Parameters => ParameterExact(ts, p);
  }

  lemma {:induction false} PatternFieldExact(ts: seq<Token>, p: nat)
    requires Stream(ts) && p < |ts| && PatternFieldOf(ts, p).errors == []
    ensures WellPatternField(Node(PatternFieldOf(ts, p).node))
    decreases |ts| - p, 3
  {
    hide PatternOf, WellPattern;
    if ts[p].kind != DotDot {
      var name := Wanted(ts, Start(p), Identifier);
      if ts[name.next].kind == Colon {
        var colon := Taken(ts, name);
        var x := PatternOf(ts, colon.next);
        assert Nested(colon, x).errors == colon.errors + x.errors;
        PatternExact(ts, colon.next);
        WantedExact(ts, Start(p), Identifier);
        assert PatternFieldOf(ts, p).node.children == [Leaf(ts[p]), Leaf(ts[p + 1]), Node(x.node)];
      }
    }
  }

  lemma {:induction false} TupleOfNamesExact(ts: seq<Token>, p: nat)
    requires Stream(ts) && p < |ts| && ts[p].kind == LParen && BindingTupleOf(ts, p).errors == []
    ensures WellTupleOfNames(Node(BindingTupleOf(ts, p).node))
    decreases |ts| - p, 3
  {
    hide Bindings, WellListed;
    ListExact(ts, Taken(ts, Start(p)), Names);
    var cs := BindingTupleOf(ts, p).node.children;
    assert cs[0] == cs[..1][0];
  }

  lemma {:induction false} ParameterExact(ts: seq<Token>, p: nat)
    requires Stream(ts) && p < |ts| && GenericOf(ts, p).errors == []
    ensures WellParameter(Node(GenericOf(ts, p).node))
  {
    hide Bounds, WellBounds, Typ, WellType;
    var name := Wanted(ts, Start(p), Identifier);
    if ts[name.next].kind == Colon {
      var colon := Taken(ts, name);
      var bound := Typ(ts, colon);
      BoundsExact(ts, bound);
      TypExact(ts, colon);
      WantedExact(ts, Start(p), Identifier);
      var cs := GenericOf(ts, p).node.children;
      assert cs[0] == bound.items[0] && cs[1] == bound.items[1] && cs[2] == bound.items[2];
    }
  }

  lemma {:induction false} BoundsExact(ts: seq<Token>, acc: Listed)
    requires Stream(ts) && acc.next < |ts| && Bounds(ts, acc).errors == []
    ensures acc.errors == []
    ensures var (cs, k) := (Bounds(ts, acc).items, |acc.items|);
            k <= |cs| && cs[..k] == acc.items && WellBounds(cs[k..])
    decreases |ts| - acc.next
  {
    hide Typ, WellType;
    var (cs, k) := (Bounds(ts, acc).items, |acc.items|);
    if ts[acc.next].kind == Op(Plus) {
      var plus := Taken(ts, acc);
      var bound := Typ(ts, plus);
      BoundsExact(ts, bound);
      TypExact(ts, plus);
      assert cs[..k] == cs[..k + 2][..k];
      assert cs[k] == bound.items[k] && cs[k + 1] == bound.items[k + 1];
      assert cs[k..][2..] == cs[k + 2..];
    }
  }

  // ------------------------------------------------------------------ lines

  lemma NameExact(ts: seq<Token>, acc: Listed)
    requires Stream(ts) && acc.next < |ts| && Named(ts, acc).errors == []
    ensures acc.errors == []
    ensures var e := if ts[acc.next].kind == LParen then Node(BindingTupleOf(ts, acc.next).node)
                     else Leaf(ts[acc.next]);
            && Named(ts, acc).items == acc.items + [e]
            && (IsLeaf(e, Identifier) || WellTupleOfNames(e))
  {
    hide BindingTupleOf, WellTupleOfNames;
    if ts[acc.next].kind == LParen {
      TupleOfNamesExact(ts, acc.next);
    }
  }

  lemma LetExact(ts: seq<Token>, p: nat)
    requires Stream(ts) && p < |ts| && (ts[p].kind == Word(Let) || ts[p].kind == Word(Var))
    requires LetOf(ts, p).errors == []
    ensures WellStatement(Node(LetOf(ts, p).node)) && Lined(ts, LetOf(ts, p)) && p < LetOf(ts, p).next
  {
    hide Named, Typ, LineTail, ParseBp, ParseType, WellTupleOfNames, Well, WellType, Trimmed, Lined, Wanted,
      BindingTupleOf;
    var word := Taken(ts, Start(p));
    var names := Named(ts, word);
    var typed := Annotated(ts, names);
    var mark := Wanted(ts, typed, Assign);
    var value := Exp(ts, mark);
    LineExact(ts, value, LetStatement);
    ExpExact(ts, mark);
    WantedExact(ts, typed, Assign);
    if ts[names.next].kind == Colon {
      TypExact(ts, Taken(ts, names));
    }
    NameExact(ts, word);
    assert WellLet(value.items);
  }

  lemma ReturnExact(ts: seq<Token>, p: nat)
    requires Stream(ts) && p < |ts| && ts[p].kind == Word(Return) && ReturnOf(ts, p).errors == []
    ensures WellStatement(Node(ReturnOf(ts, p).node)) && Lined(ts, ReturnOf(ts, p))
  {
    hide LineTail, ParseBp, Well, Trimmed, Lined;
    var word := Taken(ts, Start(p));
    if IsLineEnd(ts[word.next].kind) {
      LineExact(ts, word, ReturnStatement);
    } else {
      var value := Exp(ts, word);
      LineExact(ts, value, ReturnStatement);
      ExpExact(ts, word);
    }
  }

  /** A line of one keyword. */
  lemma SimpleExact(ts: seq<Token>, p: nat, form: Form)
    requires Stream(ts) && p < |ts| && ts[p].kind != Eof && SimpleOf(ts, p, form).errors == []
    requires || (ts[p].kind == Word(Break) && form == BreakStatement)
             || (ts[p].kind == Word(Continue) && form == ContinueStatement)
             || (ts[p].kind == Word(Pass) && form == PassStatement)
    ensures WellStatement(Node(SimpleOf(ts, p, form).node)) && Lined(ts, SimpleOf(ts, p, form))
    ensures form == PassStatement ==> WellPass(Node(SimpleOf(ts, p, form).node))
  {
    hide LineTail, Trimmed, Lined;
    LineExact(ts, Taken(ts, Start(p)), form);
  }

  lemma AssignmentExact(ts: seq<Token>, p: nat)
    requires Stream(ts) && p < |ts| && AssignmentOf(ts, p).errors == []
    ensures WellStatement(Node(AssignmentOf(ts, p).node)) && Lined(ts, AssignmentOf(ts, p))
    ensures p < AssignmentOf(ts, p).next
  {
    hide Exp, LineTail, ParseBp, Well, Trimmed, Lined;
    var left := Exp(ts, Start(p));
    if ts[left.next].kind == Assign || ts[left.next].kind == CompoundAssign {
      AssignedExact(ts, p, left);
    } else {
      ExpLast(ts, Start(p));
      LineExact(ts, left, ExpressionStatement);
      ExpExact(ts, Start(p));
    }
  }

  lemma AssignedExact(ts: seq<Token>, p: nat, left: Listed)
    requires Stream(ts) && p < |ts| && left == Exp(ts, Start(p))
    requires ts[left.next].kind == Assign || ts[left.next].kind == CompoundAssign
    requires LineTail(ts, Exp(ts, Taken(ts, left))).errors == []
    ensures var r := Made(AssignmentStatement, LineTail(ts, Exp(ts, Taken(ts, left))));
            WellStatement(Node(r.node)) && Lined(ts, r) && p < r.next
  {
    hide Exp, LineTail, ParseBp, WellEntry, Trimmed, Lined;
    var mark := Taken(ts, left);
    var value := Exp(ts, mark);
    ExpLast(ts, mark);
    LineExact(ts, value, AssignmentStatement);
    ExpExact(ts, mark);
    ExpExact(ts, Start(p));
    assert WellLine(AssignmentStatement, value.items);
  }

  lemma FieldExact(ts: seq<Token>, p: nat)
    requires Stream(ts) && p < |ts| && FieldOf(ts, p).errors == []
    ensures WellField(Node(FieldOf(ts, p).node)) && Lined(ts, FieldOf(ts, p)) && p < FieldOf(ts, p).next
  {
    hide LineTail, ParseType, WellType, Trimmed, Lined, Wanted;
    var shown := Allowed(ts, Start(p), Word(Pub));
    var name := Wanted(ts, shown, Identifier);
    var colon := Wanted(ts, name, Colon);
    var typed := Typ(ts, colon);
    var done := Allowed(ts, typed, Comma);
    LineExact(ts, done, Field);
    TypExact(ts, colon);
    WantedExact(ts, name, Colon);
    WantedExact(ts, shown, Identifier);
  }

  // ------------------------------------------------------------------ blocks

  /** The token a statement begins with says which one it is. */
  lemma {:induction false} StatementExactly(ts: seq<Token>, p: nat)
    requires Stream(ts) && p < |ts| && ts[p].kind != Eof && StatementOf(ts, p).errors == []
    ensures WellStatement(Node(StatementOf(ts, p).node)) && Lined(ts, StatementOf(ts, p))
    ensures p < StatementOf(ts, p).next
    decreases |ts| - p, 2
  {
    hide LetOf, ReturnOf, SimpleOf, IfOf, MatchOf, ForOf, ConditionalOf, UnsafeOf, AssignmentOf, WellStatement, Lined;
    var k := ts[p].kind;
    if k == Word(Let) || k == Word(Var) {
      LetExact(ts, p);
    } else if k == Word(Return) {
      ReturnExact(ts, p);
    } else if k == Word(Break) {
      SimpleExact(ts, p, BreakStatement);
    } else if k == Word(Continue) {
      SimpleExact(ts, p, ContinueStatement);
    } else if k == Word(Pass) {
      SimpleExact(ts, p, PassStatement);
    } else if k == Word(If) {
      IfExact(ts, p);
    } else if k == Word(Match) {
      MatchExact(ts, p);
    } else if k == Word(For) {
      ForExact(ts, p);
    } else if k == Word(While) {
      WhileExact(ts, p);
    } else if k == Word(Unsafe) && ts[p + 1].kind == Colon {
      UnsafeExact(ts, p);
    } else {
      AssignmentExact(ts, p);
    }
  }

  /** A body added to an open node. */
  lemma {:induction false} BodiedExact(ts: seq<Token>, acc: Listed)
    requires Stream(ts) && acc.next < |ts| && Bodied(ts, acc).errors == []
    ensures acc.errors == []
    ensures var e := Node(BodyOf(ts, acc.next).node);
            WellBlock(e, OfStatements) && Bodied(ts, acc).items == acc.items + [e]
    decreases |ts| - acc.next, 6
  {
    hide Body, BlockStart, WellBlock;
    BlockExact(ts, acc.next, OfStatements);
  }

  lemma {:induction false} IfExact(ts: seq<Token>, p: nat)
    requires Stream(ts) && p < |ts| && ts[p].kind == Word(If) && IfOf(ts, p).errors == []
    ensures WellStatement(Node(IfOf(ts, p).node)) && Lined(ts, IfOf(ts, p))
    decreases |ts| - p, 1
  {
    hide Bodied, Exp, ParseBp, Well, WellBlock, BodyOf;
    var condition := Exp(ts, Taken(ts, Start(p)));
    var then_ := Bodied(ts, condition);
    if ts[then_.next].kind == Word(Else) {
      ElseExact(ts, then_.next);
    }
    BodiedExact(ts, condition);
    ExpExact(ts, Taken(ts, Start(p)));
  }

  lemma {:induction false} ElseExact(ts: seq<Token>, p: nat)
    requires Stream(ts) && p < |ts| && ts[p].kind == Word(Else) && ElseOf(ts, p).errors == []
    ensures WellElse(Node(ElseOf(ts, p).node))
    decreases |ts| - p, 1
  {
    hide Bodied, WellBlock, BodyOf;
    BodiedExact(ts, Taken(ts, Start(p)));
  }

  lemma {:induction false} WhileExact(ts: seq<Token>, p: nat)
    requires Stream(ts) && p < |ts| && ts[p].kind == Word(While) && ConditionalOf(ts, p, WhileStatement).errors == []
    ensures WellStatement(Node(ConditionalOf(ts, p, WhileStatement).node))
    ensures Lined(ts, ConditionalOf(ts, p, WhileStatement))
    decreases |ts| - p, 1
  {
    hide Bodied, Exp, ParseBp, Well, WellBlock, BodyOf;
    BodiedExact(ts, Exp(ts, Taken(ts, Start(p))));
    ExpExact(ts, Taken(ts, Start(p)));
  }

  lemma {:induction false} ForExact(ts: seq<Token>, p: nat)
    requires Stream(ts) && p < |ts| && ts[p].kind == Word(For) && ForOf(ts, p).errors == []
    ensures WellStatement(Node(ForOf(ts, p).node)) && Lined(ts, ForOf(ts, p))
    decreases |ts| - p, 1
  {
    hide Bodied, Exp, ParseBp, Well, WellBlock, BodyOf, Wanted;
    var word := Taken(ts, Start(p));
    var name := Wanted(ts, word, Identifier);
    var binding := Wanted(ts, name, Word(In));
    BodiedExact(ts, Exp(ts, binding));
    ExpExact(ts, binding);
    WantedExact(ts, name, Word(In));
    WantedExact(ts, word, Identifier);
  }

  lemma {:induction false} UnsafeExact(ts: seq<Token>, p: nat)
    requires Stream(ts) && p < |ts| && ts[p].kind == Word(Unsafe) && UnsafeOf(ts, p).errors == []
    ensures WellStatement(Node(UnsafeOf(ts, p).node)) && Lined(ts, UnsafeOf(ts, p))
    decreases |ts| - p, 1
  {
    hide Bodied, WellBlock, BodyOf;
    BodiedExact(ts, Taken(ts, Start(p)));
  }

  lemma {:induction false} MatchExact(ts: seq<Token>, p: nat)
    requires Stream(ts) && p < |ts| && ts[p].kind == Word(Match) && MatchOf(ts, p).errors == []
    ensures WellStatement(Node(MatchOf(ts, p).node)) && Lined(ts, MatchOf(ts, p))
    decreases |ts| - p, 1
  {
    hide Exp, ParseBp, Well, WellBlock, Arms, BlockStart;
    var scrutinee := Exp(ts, Taken(ts, Start(p)));
    BlockExact(ts, scrutinee.next, OfArms);
    ExpExact(ts, Taken(ts, Start(p)));
  }

  lemma {:induction false} ArmExact(ts: seq<Token>, p: nat)
    requires Stream(ts) && p < |ts| && ts[p].kind != Eof && ts[p].kind != Dedent && ArmOf(ts, p).errors == []
    ensures WellArm(Node(ArmOf(ts, p).node)) && Lined(ts, ArmOf(ts, p))
    decreases |ts| - p, 1
  {
    hide Bodied, Exp, PatternOf, ParseBp, Well, WellBlock, BodyOf, WellPattern;
    var pattern := Nested(Start(p), PatternOf(ts, p));
    var guarded := Guarded(ts, pattern);
    BodiedErrors(ts, guarded);
    if ts[pattern.next].kind == Word(If) {
      GuardExact(ts, pattern);
    }
    PatternExact(ts, p);
    BodiedExact(ts, guarded);
  }

  lemma GuardExact(ts: seq<Token>, acc: Listed)
    requires Stream(ts) && acc.next < |ts| && ts[acc.next].kind == Word(If) && Guarded(ts, acc).errors == []
    ensures acc.errors == []
    ensures var e := Node(Made(Guard, Exp(ts, Taken(ts, Start(acc.next)))).node);
            WellGuard(e) && Guarded(ts, acc).items == acc.items + [e]
  {
    hide Exp, ParseBp, Well;
    ExpExact(ts, Taken(ts, Start(acc.next)));
  }

  /** What opens a body, at least one thing in it, and the Dedent. */
  lemma {:induction false} BlockExact(ts: seq<Token>, p: nat, what: Content)
    requires Stream(ts) && p < |ts| && BlockOf(ts, p, what).Some? && BlockOf(ts, p, what).value.errors == []
    ensures WellBlock(Node(BlockOf(ts, p, what).value.node), what)
    decreases |ts| - p, 5
  {
    hide LoopOf, Wanted, WellBody;
    var colon := Wanted(ts, Start(p), Colon);
    var line := Wanted(ts, colon, Newline);
    var open := Wanted(ts, line, Indent);
    LoopExact(ts, open, what, false);
    WantedExact(ts, line, Indent);
    WantedExact(ts, colon, Newline);
    WantedExact(ts, Start(p), Colon);
    var cs := BlockOf(ts, p, what).value.node.children;
    assert cs[0] == open.items[0] && cs[1] == open.items[1] && cs[2] == open.items[2];
    WellBodyFilled(cs[3..], what, false);
  }

  lemma WellBodyFilled(cs: seq<Element>, what: Content, any: bool)
    requires WellBody(cs, what, any)
    ensures cs != []
  {
  }

  lemma {:induction false} LoopExact(ts: seq<Token>, acc: Listed, what: Content, any: bool)
    requires Stream(ts) && acc.next < |ts|
    requires LoopOf(ts, acc, what, any).Some? && LoopOf(ts, acc, what, any).value.errors == []
    ensures acc.errors == [] && ts[acc.next].kind != Eof
    ensures var (n, k) := (LoopOf(ts, acc, what, any).value.node, |acc.items|);
            && n.kind == Outer(Block) && k < |n.children| && n.children[..k] == acc.items
            && (ts[acc.next].kind == Dedent ==> IsLeaf(n.children[k], Dedent))
            && WellBody(n.children[k..], what, any)
    decreases |ts| - acc.next, 4
  {
    hide LoopOf, PartOf, WellPart, WellBody, Unended;
    LoopStep(ts, acc, what, any);
    var (n, k) := (LoopOf(ts, acc, what, any).value.node, |acc.items|);
    var cs := n.children;
    if ts[acc.next].kind == Eof || ts[acc.next].kind == Dedent {
      WantedExact(ts, if any then acc else Faulted(acc), Dedent);
      assert cs[k..] == [Leaf(ts[acc.next])];
      BodyEnd(cs[k..], what);
    } else if ts[acc.next].kind == Newline {
      var line := Taken(ts, acc);
      LoopExact(ts, line, what, any);
      assert cs[k] == line.items[k] && cs[..k] == cs[..k + 1][..k] && cs[k..][1..] == cs[k + 1..];
      BodyLine(cs[k..], what, any);
    } else {
      var part := PartOf(ts, acc.next, what).value;
      var s := Nested(acc, part);
      LoopExact(ts, if s.next == acc.next then Taken(ts, s) else s, what, true);
      PartExact(ts, acc.next, what);
      assert cs[k] == s.items[k] && cs[..k] == cs[..k + 1][..k] && cs[k..][1..] == cs[k + 1..];
      BodyPart(cs[k..], what, any);
    }
  }

  lemma BodyEnd(cs: seq<Element>, what: Content)
    requires |cs| == 1 && IsLeaf(cs[0], Dedent)
    ensures WellBody(cs, what, true)
  {
  }

  lemma BodyLine(cs: seq<Element>, what: Content, any: bool)
    requires |cs| >= 2 && IsLeaf(cs[0], Newline) && WellBody(cs[1..], what, any)
    ensures WellBody(cs, what, any)
  {
  }

  lemma BodyPart(cs: seq<Element>, what: Content, any: bool)
    requires |cs| >= 2 && cs[0].Node? && WellPart(cs[0], what) && (Unended(cs[0]) ==> IsLeaf(cs[1], Dedent))
    requires WellBody(cs[1..], what, true)
    ensures WellBody(cs, what, any)
  {
    hide WellPart, Unended;
  }

  lemma {:induction false} PartExact(ts: seq<Token>, p: nat, what: Content)
    requires Stream(ts) && p < |ts| && ts[p].kind != Eof && ts[p].kind != Dedent
    requires PartOf(ts, p, what).Some? && PartOf(ts, p, what).value.errors == []
    ensures WellPart(Node(PartOf(ts, p, what).value.node), what)
    ensures Lined(ts, PartOf(ts, p, what).value) && p < PartOf(ts, p, what).value.next
    decreases |ts| - p, 3
  {
    hide StatementOf, ArmOf, ItemOf, FieldOf, SimpleOf, WellStatement, WellArm, WellItem, WellField, WellPass, Lined;
    match what
    case OfStatements => StatementExactly(ts, p);
    case OfArms => ArmExact(ts, p);
    case OfItems =>
      if ts[p].kind == Word(Pass) {
        SimpleExact(ts, p, PassStatement);
      } else {
        ItemExact(ts, p);
      }
    case OfFields =>
      if ts[p].kind == Word(Pass) {
        SimpleExact(ts, p, PassStatement);
      } else {
        FieldExact(ts, p);
      }
  }

  // ------------------------------------------------------------------ items

  lemma {:induction false} ItemExact(ts: seq<Token>, p: nat)
    requires Stream(ts) && p < |ts| && ItemOf(ts, p).Some? && ItemOf(ts, p).value.errors == []
    ensures WellItem(Node(ItemOf(ts, p).value.node)) && Lined(ts, ItemOf(ts, p).value)
    ensures p < ItemOf(ts, p).value.next
    decreases |ts| - p, 2
  {
    hide ItemOf, Head, WellItem, Lined, TestOf;
    ItemCases(ts, p);
    if Head(ts, p) == Word(Mod) {
      ModuleExact(ts, p);
    } else if Head(ts, p) == Word(Struct) {
      StructExact(ts, p);
    } else {
      TestExact(ts, p);
    }
  }

  /** What is no module, struct or test is reported. */
  lemma ItemCases(ts: seq<Token>, p: nat)
    requires Stream(ts) && p < |ts| && ItemOf(ts, p).Some?
    ensures Head(ts, p) == Word(Test) ==> ItemOf(ts, p).value == TestOf(ts, p)
    ensures Head(ts, p) != Word(Mod) && Head(ts, p) != Word(Struct) && Head(ts, p) != Word(Test)
            ==> ItemOf(ts, p).value.errors != []
  {
    hide Head, Members, ModuleHead, StructHead, ModuleBody, UnsafeModule, TestOf, Recovered;
    RecoveredErrors(ts, Faulted(Start(p)));
  }

  lemma {:induction false} TestExact(ts: seq<Token>, p: nat)
    requires Stream(ts) && p < |ts| && TestOf(ts, p).errors == []
    ensures WellItem(Node(TestOf(ts, p).node)) && Lined(ts, TestOf(ts, p)) && p < TestOf(ts, p).next
    decreases |ts| - p, 1
  {
    hide Bodied, WellBlock, BodyOf, Wanted;
    var word := Wanted(ts, Start(p), Word(Test));
    var name := Wanted(ts, word, Identifier);
    BodiedErrors(ts, name);
    WantedExact(ts, word, Identifier);
    WantedExact(ts, Start(p), Word(Test));
    BodiedExact(ts, name);
  }

  lemma BodiedErrors(ts: seq<Token>, acc: Listed)
    requires Stream(ts) && acc.next < |ts| && Bodied(ts, acc).errors == []
    ensures acc.errors == []
  {
    hide BodyOf;
  }

  lemma {:induction false} ModuleExact(ts: seq<Token>, p: nat)
    requires Stream(ts) && p < |ts| && Head(ts, p) == Word(Mod) && ItemOf(ts, p).Some?
    requires ItemOf(ts, p).value.errors == []
    ensures WellItem(Node(ItemOf(ts, p).value.node)) && Lined(ts, ItemOf(ts, p).value)
    ensures p < ItemOf(ts, p).value.next
    decreases |ts| - p, 1
  {
    hide Head, ItemOf, Members, BlockStart, WellBlock, Wanted;
    ModuleMade(ts, p);
    var shown := Allowed(ts, Start(p), Word(Pub));
    var word := Wanted(ts, shown, Word(Mod));
    var name := Wanted(ts, word, Identifier);
    WantedExact(ts, word, Identifier);
    WantedExact(ts, shown, Word(Mod));
    BlockExact(ts, name.next, OfItems);
    ItemMade(name.items, Module, BlockOf(ts, name.next, OfItems).value.node);
  }

  lemma ItemMade(head: seq<Element>, form: Form, body: SyntaxNode)
    requires WellBlock(Node(body), if form == Module then OfItems else OfFields) && |Bare(head)| >= 2
    requires form == Module ==> |Bare(head)| == 2 && IsLeaf(Bare(head)[0], Word(Mod))
    requires form != Module ==>
               form == StructItem && IsLeaf(Bare(head)[0], Word(Struct)) && WellOptions(Bare(head)[2..])
    requires IsLeaf(Bare(head)[1], Identifier)
    ensures WellItem(Node(SyntaxNode(Outer(form), head + [Node(body)])))
  {
    hide WellBlock, WellOptions;
    var all := head + [Node(body)];
    assert Bare(all) == Bare(head) + [Node(body)];
    assert Bare(all)[2..|Bare(all)| - 1] == Bare(head)[2..];
  }

  lemma {:induction false} StructExact(ts: seq<Token>, p: nat)
    requires Stream(ts) && p < |ts| && Head(ts, p) == Word(Struct) && ItemOf(ts, p).value.errors == []
    ensures WellItem(Node(ItemOf(ts, p).value.node)) && Lined(ts, ItemOf(ts, p).value)
    ensures p < ItemOf(ts, p).value.next
    decreases |ts| - p, 1
  {
    hide Head, Members, BlockStart, WellBlock, StructHead, WellOptions;
    StructHeadExact(ts, p);
    BlockExact(ts, StructHead(ts, p).next, OfFields);
    ItemMade(StructHead(ts, p).items, StructItem, BlockOf(ts, StructHead(ts, p).next, OfFields).value.node);
  }

  lemma StructHeadExact(ts: seq<Token>, p: nat)
    requires Stream(ts) && p < |ts| && StructHead(ts, p).errors == []
    ensures p < StructHead(ts, p).next
    ensures var cs := Bare(StructHead(ts, p).items);
            |cs| >= 2 && IsLeaf(cs[0], Word(Struct)) && IsLeaf(cs[1], Identifier) && WellOptions(cs[2..])
  {
    hide Wanted, GenericsOf, DerivesOf, WellGenerics, WellDerives;
    var shown := Allowed(ts, Start(p), Word(Pub));
    var word := Wanted(ts, shown, Word(Struct));
    var name := Wanted(ts, word, Identifier);
    var generics := Parametrized(ts, name);
    if ts[generics.next].kind == LParen {
      DerivesExact(ts, generics.next);
    }
    if ts[name.next].kind == LBracket {
      GenericsExact(ts, name.next);
    }
    WantedExact(ts, word, Identifier);
    WantedExact(ts, shown, Word(Struct));
  }

  lemma GenericsExact(ts: seq<Token>, p: nat)
    requires Stream(ts) && p < |ts| && ts[p].kind == LBracket && GenericsOf(ts, p).errors == []
    ensures WellGenerics(Node(GenericsOf(ts, p).node))
  {
    hide Generics, WellListed;
    ListExact(ts, Taken(ts, Start(p)), Parameters);
    var cs := GenericsOf(ts, p).node.children;
    assert cs[0] == cs[..1][0];
  }

  lemma DerivesExact(ts: seq<Token>, p: nat)
    requires Stream(ts) && p < |ts| && ts[p].kind == LParen && DerivesOf(ts, p).errors == []
    ensures WellDerives(Node(DerivesOf(ts, p).node))
  {
    hide Derives, WellDerived;
    var open := Taken(ts, Start(p));
    DerivedExact(ts, if ts[open.next].kind == RParen then Faulted(open) else open);
    var cs := DerivesOf(ts, p).node.children;
    assert cs[0] == cs[..1][0];
    assert cs[1..][1..] == cs[2..];
  }

  lemma {:induction false} DerivedExact(ts: seq<Token>, acc: Listed)
    requires Stream(ts) && acc.next < |ts| && Derives(ts, acc).errors == []
    ensures acc.errors == []
    ensures var (cs, k) := (Derives(ts, acc).items, |acc.items|);
            && k < |cs| && cs[..k] == acc.items
            && if ts[acc.next].kind == RParen then |cs| == k + 1 && IsLeaf(cs[k], RParen)
               else IsName(cs[k]) && WellDerived(cs[k + 1..])
    decreases |ts| - acc.next, 1
  {
    hide Derives, Pathed, WellDerived, WellPath, PathTail;
    DerivesStep(ts, acc);
    var (cs, k) := (Derives(ts, acc).items, |acc.items|);
    if ts[acc.next].kind == Eof || ts[acc.next].kind == RParen {
      WantedExact(ts, acc, RParen);
    } else {
      var entry := Pathed(ts, acc);
      var path := PathTail(ts, acc.next + 1).items;
      DerivedRest(ts, acc);
      PathedExact(ts, acc);
      DerivedMade(cs, acc.items, ts[acc.next], path);
    }
  }

  lemma DerivedMade(cs: seq<Element>, items: seq<Element>, name: Token, path: seq<Element>)
    requires var head := items + ([Leaf(name)] + path);
             |head| < |cs| && cs[..|head|] == head && WellDerived(cs[|head|..])
    requires IsPath(name.kind) && WellPath(path)
    ensures cs[..|items|] == items && IsName(cs[|items|]) && WellDerived(cs[|items| + 1..])
  {
    hide WellDerived, WellPath;
    var (k, h) := (|items|, |items| + 1 + |path|);
    DerivedJoin(path, cs[h..]);
    assert cs[..k] == cs[..h][..k] && cs[k] == cs[..h][k];
    assert path == cs[..h][k + 1..];
    assert cs[k + 1..] == path + cs[h..];
  }

  /** What stands after the first path. */
  lemma {:induction false} DerivedRest(ts: seq<Token>, acc: Listed)
    requires Stream(ts) && acc.next < |ts| && ts[acc.next].kind != Eof && ts[acc.next].kind != RParen
    requires Derives(ts, acc).errors == [] && acc.next < |ts|
    ensures Pathed(ts, acc).errors == []
    ensures var (cs, k) := (Derives(ts, acc).items, |Pathed(ts, acc).items|);
            k < |cs| && cs[..k] == Pathed(ts, acc).items && WellDerived(cs[k..])
    decreases |ts| - acc.next, 0
  {
    hide Derives, Pathed, WellDerived;
    DerivesStep(ts, acc);
    var entry := Pathed(ts, acc);
    var (cs, k) := (Derives(ts, acc).items, |entry.items|);
    if ts[entry.next].kind == Comma {
      var comma := Taken(ts, entry);
      DerivedExact(ts, comma);
      assert cs[..k] == cs[..k + 1][..k] && cs[k] == comma.items[k];
      assert cs[k..][2..] == cs[k + 2..];
    } else {
      WantedExact(ts, entry, RParen);
    }
    DerivedNext(cs[k..]);
  }

  lemma DerivedNext(cs: seq<Element>)
    requires cs != []
    requires || (|cs| == 1 && IsLeaf(cs[0], RParen))
             || (|cs| == 2 && IsLeaf(cs[0], Comma) && IsLeaf(cs[1], RParen))
             || (|cs| >= 2 && IsLeaf(cs[0], Comma) && IsName(cs[1]) && WellDerived(cs[2..]))
    ensures WellDerived(cs)
  {
  }

  lemma {:induction false} DerivedJoin(path: seq<Element>, rest: seq<Element>)
    requires WellPath(path) && WellDerived(rest)
    ensures WellDerived(path + rest)
  {
    if path == [] {
      assert path + rest == rest;
    } else {
      DerivedJoin(path[2..], rest);
      assert (path + rest)[2..] == path[2..] + rest;
    }
  }

  // ------------------------------------------------------------------ files

  lemma {:induction false} NewlinesExact(ts: seq<Token>, acc: Listed)
    requires Stream(ts) && acc.next < |ts|
    ensures var (r, k) := (Newlines(ts, acc), |acc.items|);
            && r.errors == acc.errors && k <= |r.items| && r.items[..k] == acc.items
            && forall i :: k <= i < |r.items| ==> IsLeaf(r.items[i], Newline)
    decreases |ts| - acc.next
  {
    if ts[acc.next].kind == Newline {
      NewlinesExact(ts, Taken(ts, acc));
    }
  }

  lemma {:induction false} LinesJoin(cs: seq<Element>, k: nat)
    requires k < |cs| && WellItemsOf(cs[k..]) && forall i :: 0 <= i < k ==> IsLeaf(cs[i], Newline)
    ensures WellItemsOf(cs)
    decreases k
  {
    hide WellItem;
    if k == 0 {
      assert cs[0..] == cs;
    } else {
      assert cs[1..][k - 1..] == cs[k..];
      LinesJoin(cs[1..], k - 1);
    }
  }

  lemma {:induction false} ItemsExactly(ts: seq<Token>, acc: Listed)
    requires Stream(ts) && acc.next < |ts| && Items(ts, acc).Some? && Items(ts, acc).value.errors == []
    ensures acc.errors == []
    ensures var (n, k) := (Items(ts, acc).value.node, |acc.items|);
            && n.kind == Outer(File) && k < |n.children| && n.children[..k] == acc.items
            && WellItemsOf(n.children[k..])
    decreases |ts| - acc.next
  {
    hide Items, ItemOf, Newlines, WellItem, Lined;
    FileStep(ts, acc);
    var (n, k) := (Items(ts, acc).value.node, |acc.items|);
    var cs := n.children;
    if ts[acc.next].kind == Eof {
      assert cs[k..] == [Leaf(ts[acc.next])];
    } else if ts[acc.next].kind == Dedent {
      ItemsExactly(ts, Taken(ts, Faulted(acc)));
    } else {
      var s := Nested(acc, ItemOf(ts, acc.next).value);
      var t := if s.next == acc.next then Taken(ts, Faulted(s)) else s;
      var next := Newlines(ts, t);
      ItemsExactly(ts, next);
      NewlinesExact(ts, t);
      ItemExact(ts, acc.next);
      ItemAndLines(cs, acc, s, next);
    }
  }

  /** An item, the Newlines after it and the rest of the file. */
  lemma ItemAndLines(cs: seq<Element>, acc: Listed, s: Listed, next: Listed)
    requires |s.items| == |acc.items| + 1 && s.items[..|acc.items|] == acc.items && WellItem(s.items[|acc.items|])
    requires |s.items| <= |next.items| && next.items[..|s.items|] == s.items
    requires forall i :: |s.items| <= i < |next.items| ==> IsLeaf(next.items[i], Newline)
    requires |next.items| < |cs| && cs[..|next.items|] == next.items && WellItemsOf(cs[|next.items|..])
    ensures cs[..|acc.items|] == acc.items && WellItemsOf(cs[|acc.items|..])
  {
    hide WellItem, WellItemsOf;
    var (k, j) := (|acc.items|, |next.items|);
    var rest := cs[k + 1..];
    FirstItems(cs, k, j, acc.items, s.items, next.items, rest);
    LinesJoin(rest, j - k - 1);
    ItemJoin(cs[k..]);
  }

  lemma FirstItems(cs: seq<Element>, k: nat, j: nat, a: seq<Element>, b: seq<Element>, c: seq<Element>,
                   rest: seq<Element>)
    requires |a| == k && |b| == k + 1 <= |c| == j < |cs| && b[..k] == a && c[..k + 1] == b && cs[..j] == c
    requires rest == cs[k + 1..] && forall i :: k + 1 <= i < j ==> IsLeaf(c[i], Newline)
    ensures cs[..k] == a && cs[k] == b[k] && cs[k..][0] == cs[k] && cs[k..][1..] == rest && rest[j - k - 1..] == cs[j..]
    ensures forall i :: 0 <= i < j - k - 1 ==> IsLeaf(rest[i], Newline)
  {
    assert cs[..k] == cs[..j][..k] == c[..k + 1][..k];
    assert cs[k] == c[k] == b[k];
    forall i | 0 <= i < j - k - 1 ensures IsLeaf(rest[i], Newline) {
      assert rest[i] == c[k + 1 + i];
    }
  }

  lemma ItemJoin(cs: seq<Element>)
    ensures |cs| >= 2 && WellItem(cs[0]) && WellItemsOf(cs[1..]) ==> WellItemsOf(cs)
  {
  }

  /** A file parsed without a diagnostic is well formed. */
  lemma FileExact(ts: seq<Token>)
    requires Stream(ts) && FileOf(ts).Some? && FileOf(ts).value.errors == []
    ensures WellFile(FileOf(ts).value.node)
  {
    hide Items, Newlines, WellItemsOf;
    var start := Newlines(ts, Start(0));
    ItemsExactly(ts, start);
    NewlinesExact(ts, Start(0));
    var cs := FileOf(ts).value.node.children;
    assert forall i :: 0 <= i < |start.items| ==> cs[i] == start.items[i];
    LinesJoin(cs, |start.items|);
  }

  /** The parser accepts exactly the well-formed files: what it parses without a diagnostic is one,
      and the tokens of each are parsed to it, without a diagnostic. */
  lemma FileExactly(ts: seq<Token>)
    requires Stream(ts)
    ensures FileOf(ts).Some? && FileOf(ts).value.errors == [] ==> WellFile(FileOf(ts).value.node)
    ensures forall n :: WellFile(n) && Leaves(n) == ts ==> FileOf(ts) == Some(Parsed(n, |ts|, []))
  {
    hide FileOf, WellFile, Leaves;
    if FileOf(ts).Some? && FileOf(ts).value.errors == [] {
      FileExact(ts);
    }
    forall n | WellFile(n) && Leaves(n) == ts ensures FileOf(ts) == Some(Parsed(n, |ts|, [])) {
      FileCompletes(n);
    }
  }
}
