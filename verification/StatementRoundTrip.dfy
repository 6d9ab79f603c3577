/** Every well-formed file is what the parser makes of its tokens.
 */
module StatementRoundTrip {
  import opened Pratt
  import opened PrattRoundTrip
  import opened PrattSteps
  import opened PrattTrees
  import opened StatementTrees
  import opened Statements
  import opened Syntax
  import opened Wrappers

  // ------------------------------------------------------------------ open nodes

  /** The tokens of `cs` stand at `p`, and something after them. */
  ghost predicate Placed(ts: seq<Token>, p: nat, cs: seq<Element>) {
    Stream(ts) && Matches(ts, p, Flat(cs)) && p + |Flat(cs)| < |ts|
  }

  /** A node opened at `p` with its first `k` children. */
  ghost function Upto(p: nat, cs: seq<Element>, k: nat): Listed
    requires k <= |cs|
  {
    Listed(cs[..k], p + |Flat(cs[..k])|, [])
  }

  /** The node `n` read at `p`. */
  ghost function Done(p: nat, n: SyntaxNode): Parsed {
    Parsed(n, End(p, n), [])
  }

  lemma UptoEnds(p: nat, cs: seq<Element>)
    ensures Upto(p, cs, 0) == Start(p) && Upto(p, cs, |cs|) == Listed(cs, p + |Flat(cs)|, [])
  {
    assert cs[..|cs|] == cs;
    FlatNone(cs[..0]);
  }

  lemma SeqApart(cs: seq<Element>, k: nat)
    requires k < |cs|
    ensures cs == cs[..k] + ([cs[k]] + cs[k + 1..]) && cs[..k + 1] == cs[..k] + [cs[k]]
  {
  }

  lemma FlatAt(cs: seq<Element>, k: nat)
    requires k < |cs|
    ensures Flat(cs) == Flat(cs[..k]) + (LeavesOf(cs[k]) + Flat(cs[k + 1..]))
    ensures Flat(cs[..k + 1]) == Flat(cs[..k]) + LeavesOf(cs[k]) && cs[..k + 1] == cs[..k] + [cs[k]]
  {
    hide LeavesOf, Flat;
    var (a, e, c) := (cs[..k], cs[k], cs[k + 1..]);
    SeqApart(cs, k);
    FlatAppend(a, [e] + c);
    FlatAppend([e], c);
    FlatAppend(a, [e]);
    FlatOne(e);
  }

  /** The next child stands at the position reached. */
  lemma Place(ts: seq<Token>, p: nat, cs: seq<Element>, k: nat)
    requires Placed(ts, p, cs) && k < |cs|
    ensures var (q, r) := (Upto(p, cs, k).next, Upto(p, cs, k + 1).next);
            && q <= r == q + |LeavesOf(cs[k])| <= p + |Flat(cs)| < |ts| && Matches(ts, q, LeavesOf(cs[k]))
            && (cs[k].Leaf? ==> r == q + 1 && ts[q] == cs[k].token)
            && (cs[k].Node? ==> Placed(ts, q, cs[k].node.children) && r == End(q, cs[k].node))
    ensures Upto(p, cs, k + 1).items == Upto(p, cs, k).items + [cs[k]]
  {
    hide Stream, LeavesOf, Flat, Matches;
    FlatAt(cs, k);
    var (e, before, after) := (cs[k], Flat(cs[..k]), Flat(cs[k + 1..]));
    MatchesApart(ts, p, before, LeavesOf(e) + after);
    MatchesApart(ts, p + |before|, LeavesOf(e), after);
    ElementLeaves(e);
    if e.Leaf? {
      MatchesToken(ts, p + |before|, e.token);
    }
  }

  lemma ElementLeaves(e: Element)
    ensures LeavesOf(e) == if e.Leaf? then [e.token] else Flat(e.node.children)
    ensures e.Node? ==> LeavesOf(e) == Leaves(e.node)
  {
  }

  /** Taking a child that is a token. */
  lemma TakenAt(ts: seq<Token>, p: nat, cs: seq<Element>, k: nat)
    requires Placed(ts, p, cs) && k < |cs| && cs[k].Leaf?
    ensures Upto(p, cs, k).next < |ts| && ts[Upto(p, cs, k).next] == cs[k].token && cs[k].token.kind != Eof
    ensures Taken(ts, Upto(p, cs, k)) == Upto(p, cs, k + 1)
  {
    hide Upto, Placed;
    Place(ts, p, cs, k);
    NoEof(ts, p, cs, Upto(p, cs, k).next);
    UptoErrors(p, cs, k);
    UptoErrors(p, cs, k + 1);
  }

  lemma NoEof(ts: seq<Token>, p: nat, cs: seq<Element>, q: nat)
    requires Placed(ts, p, cs) && q < p + |Flat(cs)|
    ensures ts[q].kind != Eof
  {
    hide Flat, Matches;
  }

  lemma UptoErrors(p: nat, cs: seq<Element>, k: nat)
    requires k <= |cs|
    ensures Upto(p, cs, k).errors == []
  {
    hide Flat;
  }

  /** Adding a child that is a node. */
  lemma NestedAt(ts: seq<Token>, p: nat, cs: seq<Element>, k: nat)
    requires Placed(ts, p, cs) && k < |cs| && cs[k].Node?
    ensures Nested(Upto(p, cs, k), Done(Upto(p, cs, k).next, cs[k].node)) == Upto(p, cs, k + 1)
    ensures Placed(ts, Upto(p, cs, k).next, cs[k].node.children) && Upto(p, cs, k + 1).next < |ts|
    ensures Upto(p, cs, k + 1).next == End(Upto(p, cs, k).next, cs[k].node)
  {
    hide Upto, Placed, Leaves;
    Place(ts, p, cs, k);
    UptoErrors(p, cs, k);
    UptoErrors(p, cs, k + 1);
  }

  lemma WantedAt(ts: seq<Token>, p: nat, cs: seq<Element>, k: nat, kind: Kind)
    requires Placed(ts, p, cs) && k < |cs| && IsLeaf(cs[k], kind)
    ensures kind != Eof && Upto(p, cs, k).next < |ts| && ts[Upto(p, cs, k).next].kind == kind
    ensures Wanted(ts, Upto(p, cs, k), kind) == Upto(p, cs, k + 1)
    ensures Allowed(ts, Upto(p, cs, k), kind) == Upto(p, cs, k + 1)
  {
    hide Upto, Placed;
    TakenAt(ts, p, cs, k);
  }

  /** The open node is where it was while a kind of token is not there. */
  lemma AllowedNot(ts: seq<Token>, acc: Listed, k: Kind)
    requires Stream(ts) && acc.next < |ts| && ts[acc.next].kind != k && k != Eof
    ensures Allowed(ts, acc, k) == acc
  {
  }

  lemma ExpAt(ts: seq<Token>, p: nat, cs: seq<Element>, k: nat)
    requires Placed(ts, p, cs) && k < |cs| && WellEntry(cs[k], Exprs)
    requires Upto(p, cs, k + 1).next < |ts| && Ends(ts[Upto(p, cs, k + 1).next].kind)
    ensures Upto(p, cs, k).next < Upto(p, cs, k + 1).next && Starts(ts[Upto(p, cs, k).next].kind)
    ensures Exp(ts, Upto(p, cs, k)) == Upto(p, cs, k + 1)
  {
    hide Upto, Placed, Well, ParseBp, Leaves, Ends, Follow, Stops, Level, Matches, Starts;
    Place(ts, p, cs, k);
    var q := Upto(p, cs, k).next;
    EntryNode(ts, q, cs[k], Exprs);
    ElementLeaves(cs[k]);
    PlacedReady(ts, q, cs[k].node);
    ExprClosed(ts[End(q, cs[k].node)].kind, cs[k].node);
    OperandCompletes(ts, q, cs[k].node, 0);
    NestedAt(ts, p, cs, k);
    ExprStarts(cs[k].node);
  }

  lemma PlacedReady(ts: seq<Token>, p: nat, n: SyntaxNode)
    requires Placed(ts, p, n.children)
    ensures Ready(ts, p, n)
  {
  }

  lemma TypAt(ts: seq<Token>, p: nat, cs: seq<Element>, k: nat)
    requires Placed(ts, p, cs) && k < |cs| && WellEntry(cs[k], Types)
    requires Upto(p, cs, k + 1).next < |ts|
    requires Ends(ts[Upto(p, cs, k + 1).next].kind) || ts[Upto(p, cs, k + 1).next].kind == Op(Plus)
    ensures Upto(p, cs, k).next < |ts|
    ensures Typ(ts, Upto(p, cs, k)) == Upto(p, cs, k + 1)
  {
    hide Upto, Placed, WellType, ParseType, Leaves, Ends, TypeFollow, Matches;
    Place(ts, p, cs, k);
    var q := Upto(p, cs, k).next;
    PlacedReady(ts, q, cs[k].node);
    TypeClosed(ts[End(q, cs[k].node)].kind, cs[k].node);
    TypeCompletes(ts, q, cs[k].node);
    NestedAt(ts, p, cs, k);
  }

  lemma PlacedIn(ts: seq<Token>, p: nat, cs: seq<Element>)
    requires Placed(ts, p, cs)
    ensures Stream(ts) && p <= p + |Flat(cs)| < |ts|
  {
    hide Stream, Flat, Matches;
  }

  lemma PathSplit(cs: seq<Element>, k: nat, m: nat)
    requires k < m <= |cs| && WellPath(cs[k..m])
    ensures k + 2 <= m && IsLeaf(cs[k], Dot) && IsLeaf(cs[k + 1], Identifier) && WellPath(cs[k + 2..m])
    ensures cs[k..m] == [cs[k], cs[k + 1]] + cs[k + 2..m]
  {
    var path := cs[k..m];
    assert path[0] == cs[k] && path[1] == cs[k + 1] && path[2..] == cs[k + 2..m];
  }

  /** A dotted path among the children. */
  lemma {:induction false} PathTailAt(ts: seq<Token>, p: nat, cs: seq<Element>, k: nat, m: nat)
    requires Placed(ts, p, cs) && k <= m <= |cs| && WellPath(cs[k..m])
    requires Upto(p, cs, m).next < |ts| && ts[Upto(p, cs, m).next].kind != Dot
    ensures Upto(p, cs, k).next < |ts|
    ensures PathTail(ts, Upto(p, cs, k).next) == Listed(cs[k..m], Upto(p, cs, m).next, [])
    decreases m - k
  {
    hide Upto, Placed, PathTail, WellPath;
    PlacedIn(ts, p, cs);
    if k < m {
      PathSplit(cs, k, m);
      TakenAt(ts, p, cs, k);
      TakenAt(ts, p, cs, k + 1);
      PathTailAt(ts, p, cs, k + 2, m);
      PathTailStep(ts, Upto(p, cs, k).next);
    } else {
      PathTailStep(ts, Upto(p, cs, k).next);
    }
  }

  lemma PathedAt(ts: seq<Token>, p: nat, cs: seq<Element>, k: nat, m: nat)
    requires Placed(ts, p, cs) && k < m <= |cs| && IsName(cs[k]) && WellPath(cs[k + 1..m])
    requires Upto(p, cs, m).next < |ts| && ts[Upto(p, cs, m).next].kind != Dot
    ensures Upto(p, cs, k).next < |ts| && IsPath(ts[Upto(p, cs, k).next].kind)
    ensures Pathed(ts, Upto(p, cs, k)) == Upto(p, cs, m)
  {
    hide Placed, PathTail, WellPath, Flat;
    TakenAt(ts, p, cs, k);
    PathTailAt(ts, p, cs, k + 1, m);
    assert cs[..k + 1] + cs[k + 1..m] == cs[..m];
  }

  // ------------------------------------------------------------------ patterns

  predicate AtomFollow(k: Kind) {
    k != Dot && k != LParen && k != LBrace
  }

  predicate PatternFollow(k: Kind) {
    AtomFollow(k) && k != Op(Pipe)
  }

  lemma MadeAll(p: nat, n: SyntaxNode, form: Form)
    requires n.kind == Outer(form)
    ensures Made(form, Upto(p, n.children, |n.children|)) == Done(p, n)
  {
    UptoEnds(p, n.children);
  }

  lemma PatternNode(e: Element)
    requires WellPattern(e)
    ensures e.Node? && e.node.children != [] && e.node.children[0].Node?
  {
    hide WellAlternatives;
    AtomNode(e.node.children[0]);
  }

  lemma AtomNode(e: Element)
    requires WellAtom(e)
    ensures e.Node?
  {
  }

  lemma {:induction false} PatternAt(ts: seq<Token>, p: nat, e: Element)
    requires WellPattern(e) && Placed(ts, p, e.node.children) && PatternFollow(ts[End(p, e.node)].kind)
    ensures PatternOf(ts, p) == Done(p, e.node)
    decreases e, 3
  {
    hide Placed, Upto, AtomOf, Alternatives, WellAtom, WellAlternatives, Flat;
    var cs := e.node.children;
    UptoEnds(p, cs);
    AlternativesAt(ts, p, cs, 1);
    PatternNode(e);
    NestedAt(ts, p, cs, 0);
    AlternativesNext(ts, p, cs, 1);
    AtomAt(ts, p, cs[0]);
    MadeAll(p, e.node, if |cs| == 1 then Pattern else AlternativePattern);
  }

  /** After an alternative stands a bar, or what follows the pattern. */
  lemma AlternativesNext(ts: seq<Token>, p: nat, cs: seq<Element>, k: nat)
    requires Placed(ts, p, cs) && k <= |cs| && WellAlternatives(cs[k..]) && AtomFollow(ts[p + |Flat(cs)|].kind)
    ensures Upto(p, cs, k).next < |ts| && AtomFollow(ts[Upto(p, cs, k).next].kind)
  {
    hide Placed, Upto, Flat, WellAtom;
    UptoEnds(p, cs);
    PlacedIn(ts, p, cs);
    if k < |cs| {
      assert cs[k..][0] == cs[k];
      TakenAt(ts, p, cs, k);
    }
  }

  lemma AlternativesSplit(cs: seq<Element>, k: nat)
    requires k < |cs| && WellAlternatives(cs[k..])
    ensures k + 1 < |cs| && IsLeaf(cs[k], Op(Pipe)) && WellAtom(cs[k + 1]) && WellAlternatives(cs[k + 2..])
  {
    hide WellAtom;
    assert cs[k..][0] == cs[k] && cs[k..][1] == cs[k + 1] && cs[k..][2..] == cs[k + 2..];
  }

  /** One alternative more. */
  lemma AlternativesStep(ts: seq<Token>, acc: Listed, atom: Parsed, any: bool)
    requires Stream(ts) && acc.next + 1 < |ts| && ts[acc.next].kind == Op(Pipe) && atom == AtomOf(ts, acc.next + 1)
    ensures Alternatives(ts, acc, any) == Alternatives(ts, Nested(Taken(ts, acc), atom), true)
  {
    hide AtomOf;
  }

  lemma AlternativesEnd(ts: seq<Token>, acc: Listed, any: bool)
    requires Stream(ts) && acc.next < |ts| && ts[acc.next].kind != Op(Pipe)
    ensures Alternatives(ts, acc, any) == Made(if any then AlternativePattern else Pattern, acc)
  {
    hide AtomOf;
  }

  lemma {:induction false} AlternativesAt(ts: seq<Token>, p: nat, cs: seq<Element>, k: nat)
    requires 1 <= k <= |cs| && Placed(ts, p, cs) && WellAlternatives(cs[k..]) && PatternFollow(ts[p + |Flat(cs)|].kind)
    ensures Upto(p, cs, k).next < |ts|
    ensures Alternatives(ts, Upto(p, cs, k), k > 1)
         == Made(if |cs| == 1 then Pattern else AlternativePattern, Upto(p, cs, |cs|))
    decreases cs, 4, |cs| - k
  {
    hide Placed, Upto, Flat, AtomOf, WellAtom, Alternatives, Taken, Nested, Made, WellAlternatives;
    PlacedIn(ts, p, cs);
    UptoEnds(p, cs);
    if k == |cs| {
      AlternativesEnd(ts, Upto(p, cs, k), k > 1);
    } else {
      AlternativesSplit(cs, k);
      TakenAt(ts, p, cs, k);
      AtomNode(cs[k + 1]);
      NestedAt(ts, p, cs, k + 1);
      AlternativesNext(ts, p, cs, k + 2);
      var q := Upto(p, cs, k + 1).next;
      AtomAt(ts, q, cs[k + 1]);
      AlternativesStep(ts, Upto(p, cs, k), Done(q, cs[k + 1].node), k > 1);
      AlternativesAt(ts, p, cs, k + 2);
    }
  }

  lemma {:induction false} AtomAt(ts: seq<Token>, p: nat, e: Element)
    requires WellAtom(e) && Placed(ts, p, e.node.children) && AtomFollow(ts[End(p, e.node)].kind)
    ensures p < |ts| && AtomOf(ts, p) == Done(p, e.node)
    decreases e, 2
  {
    hide Placed, Upto, PatternList, PathPatternOf, WellApplied, WellPath, Flat;
    var cs := e.node.children;
    UptoEnds(p, cs);
    if cs[0].Leaf? {
      TakenAt(ts, p, cs, 0);
    }
    match e.node.kind.form
    case DereferencePattern =>
      NestedAt(ts, p, cs, 1);
      AtomAt(ts, Upto(p, cs, 1).next, cs[1]);
      MadeAll(p, e.node, DereferencePattern);
    case TuplePattern =>
      ListAt(ts, p, cs, 1, Patterns);
      MadeAll(p, e.node, TuplePattern);
    case Pattern =>
      if IsName(cs[0]) {
        NamedAt(ts, p, e);
      } else {
        MadeAll(p, e.node, Pattern);
      }
    case VariantPattern => AppliedAt(ts, p, e, LParen, Patterns);
    case RecordPattern => AppliedAt(ts, p, e, LBrace, PatternFields);
  }

  /** A path alone. */
  lemma NamedAt(ts: seq<Token>, p: nat, e: Element)
    requires IsForm(e, Pattern) && e.node.children != []
    requires IsName(e.node.children[0]) && WellPath(e.node.children[1..])
    requires Placed(ts, p, e.node.children) && AtomFollow(ts[End(p, e.node)].kind)
    ensures p < |ts| && IsPath(ts[p].kind) && PathPatternOf(ts, p) == Done(p, e.node)
  {
    hide Placed, Upto, Pathed, PatternList, WellPath, Flat;
    var cs := e.node.children;
    UptoEnds(p, cs);
    PlacedIn(ts, p, cs);
    assert cs[1..|cs|] == cs[1..];
    PathedAt(ts, p, cs, 0, |cs|);
    MadeAll(p, e.node, Pattern);
  }

  /** A path and a list. */
  lemma {:induction false} AppliedAt(ts: seq<Token>, p: nat, e: Element, open: Kind, what: Listing)
    requires || (IsForm(e, VariantPattern) && open == LParen && what == Patterns)
             || (IsForm(e, RecordPattern) && open == LBrace && what == PatternFields)
    requires var cs := e.node.children; cs != [] && IsName(cs[0]) && WellApplied(cs[1..], open, what)
    requires Placed(ts, p, e.node.children)
    ensures p < |ts| && IsPath(ts[p].kind) && PathPatternOf(ts, p) == Done(p, e.node)
    decreases e, 1
  {
    hide Placed, Upto, Pathed, PatternList, WellPath, WellApplied, WellListed, Flat;
    var cs := e.node.children;
    UptoEnds(p, cs);
    var m := AppliedSplit(cs, 1, open, what);
    TakenAt(ts, p, cs, m);
    PathedAt(ts, p, cs, 0, m);
    ListAt(ts, p, cs, m + 1, what);
    MadeAll(p, e.node, if what == Patterns then VariantPattern else RecordPattern);
  }

  lemma {:induction false} AppliedSplit(cs: seq<Element>, k: nat, open: Kind, what: Listing) returns (m: nat)
    requires k <= |cs| && WellApplied(cs[k..], open, what) && open != Dot
    ensures k <= m < |cs| && WellPath(cs[k..m]) && IsLeaf(cs[m], open) && WellListed(cs[m + 1..], what)
    decreases |cs| - k
  {
    hide WellListed;
    assert cs[k..][0] == cs[k];
    if IsLeaf(cs[k], Dot) {
      assert cs[k..][1] == cs[k + 1] && cs[k..][2..] == cs[k + 2..];
      m := AppliedSplit(cs, k + 2, open, what);
      assert cs[k..m][2..] == cs[k + 2..m];
    } else {
      m := k;
      assert cs[k..][1..] == cs[k + 1..];
    }
  }

  // ------------------------------------------------------------------ lists

  /** No entry begins with the end of the stream or a closing token. */
  lemma EntryBegins(e: Element, what: Listing)
    requires WellEntryOf(e, what)
    ensures e.Node? && LeavesOf(e) != []
    ensures var k := LeavesOf(e)[0].kind; k != Eof && !Closer(k)
  {
    hide WellAtom, WellAlternatives, WellBounds, WellListed;
    FirstLeaf(e);
    match what
    case Patterns => PatternBegins(e);
    case _ =>
  }

  lemma FirstLeaf(e: Element)
    requires e.Node? && e.node.children != []
    ensures LeavesOf(e) == LeavesOf(e.node.children[0]) + Flat(e.node.children[1..])
    ensures e.node.children[0].Leaf? ==> LeavesOf(e) != [] && LeavesOf(e)[0] == e.node.children[0].token
  {
    var cs := e.node.children;
    assert LeavesOf(e) == Flat(cs);
  }

  lemma PatternBegins(e: Element)
    requires WellPattern(e)
    ensures LeavesOf(e) != []
    ensures var k := LeavesOf(e)[0].kind; k == Op(Star) || k == LParen || IsLiteral(k) || IsPath(k)
  {
    hide WellAlternatives, WellListed, WellApplied, WellPath, LeavesOf, Flat;
    FirstLeaf(e);
    FirstLeaf(e.node.children[0]);
  }

  lemma {:induction false} ListAt(ts: seq<Token>, p: nat, cs: seq<Element>, k: nat, what: Listing)
    requires Placed(ts, p, cs) && k <= |cs| && WellListed(cs[k..], what)
    ensures Upto(p, cs, k).next < |ts| && ListParsed(ts, Upto(p, cs, k), what) == Upto(p, cs, |cs|)
    decreases cs, 5, |cs| - k
  {
    hide Placed, Upto, ListParsed, EntryParsed, WellEntryOf, Flat, Leaves, LeavesOf;
    PlacedIn(ts, p, cs);
    var rest := cs[k..];
    assert rest[0] == cs[k];
    if |rest| == 1 {
      WantedAt(ts, p, cs, k, what.Close());
      ListStep(ts, Upto(p, cs, k), what);
    } else {
      assert rest[1] == cs[k + 1] && rest[2..] == cs[k + 2..];
      EntryBegins(cs[k], what);
      EntryHere(ts, p, cs, k);
      TakenAt(ts, p, cs, k + 1);
      NestedAt(ts, p, cs, k);
      EntryAt(ts, Upto(p, cs, k).next, cs[k], what);
      ListStep(ts, Upto(p, cs, k), what);
      if |rest| > 2 {
        ListAt(ts, p, cs, k + 2, what);
      }
    }
  }

  /** The first token of a child that is a node. */
  lemma EntryHere(ts: seq<Token>, p: nat, cs: seq<Element>, k: nat)
    requires Placed(ts, p, cs) && k < |cs| && LeavesOf(cs[k]) != []
    ensures Upto(p, cs, k).next < |ts| && ts[Upto(p, cs, k).next] == LeavesOf(cs[k])[0]
    ensures Upto(p, cs, k).next < Upto(p, cs, k + 1).next < |ts|
  {
    hide Placed, Upto, Flat, LeavesOf, Matches;
    Place(ts, p, cs, k);
    StartsAt(ts, Upto(p, cs, k).next, LeavesOf(cs[k]));
  }

  lemma {:induction false} EntryAt(ts: seq<Token>, p: nat, e: Element, what: Listing)
    requires WellEntryOf(e, what) && e.Node? && Placed(ts, p, e.node.children)
    requires ts[End(p, e.node)].kind == Comma || ts[End(p, e.node)].kind == what.Close()
    ensures p < |ts| && EntryParsed(ts, p, what) == Done(p, e.node)
    decreases e, 4
  {
    hide Placed, Upto, PatternOf, PatternFieldOf, BindingTupleOf, GenericOf, WellPattern, WellPatternField,
      WellTupleOfNames, WellParameter, Flat;
    PlacedIn(ts, p, e.node.children);
    match what
    case Patterns => PatternAt(ts, p, e);
    case PatternFields => PatternFieldAt(ts, p, e);
    case Names =>
      if WellTupleOfNames(e) {
        TupleOfNamesAt(ts, p, e);
      } else {
        UptoEnds(p, e.node.children);
        WantedAt(ts, p, e.node.children, 0, Identifier);
        MadeAll(p, e.node, Pattern);
      }
    case Parameters => ParameterAt(ts, p, e);
  }

  lemma {:induction false} PatternFieldAt(ts: seq<Token>, p: nat, e: Element)
    requires WellPatternField(e) && Placed(ts, p, e.node.children)
    requires ts[End(p, e.node)].kind == Comma || ts[End(p, e.node)].kind == RBrace
    ensures p < |ts| && PatternFieldOf(ts, p) == Done(p, e.node)
    decreases e, 3
  {
    hide Placed, Upto, PatternOf, WellPattern, Flat, Wanted;
    var cs := e.node.children;
    UptoEnds(p, cs);
    TakenAt(ts, p, cs, 0);
    MadeAll(p, e.node, PatternField);
    if IsLeaf(cs[0], Identifier) {
      WantedAt(ts, p, cs, 0, Identifier);
    }
    if |cs| == 3 {
      TakenAt(ts, p, cs, 1);
      PatternNode(cs[2]);
      NestedAt(ts, p, cs, 2);
      PatternAt(ts, Upto(p, cs, 2).next, cs[2]);
    }
  }

  lemma {:induction false} TupleOfNamesAt(ts: seq<Token>, p: nat, e: Element)
    requires WellTupleOfNames(e) && Placed(ts, p, e.node.children)
    ensures p < |ts| && ts[p].kind == LParen && BindingTupleOf(ts, p) == Done(p, e.node)
    decreases e, 3
  {
    hide Placed, Upto, Bindings, WellListed, Flat;
    var cs := e.node.children;
    UptoEnds(p, cs);
    TakenAt(ts, p, cs, 0);
    ListAt(ts, p, cs, 1, Names);
    MadeAll(p, e.node, TuplePattern);
  }

  lemma ParameterAt(ts: seq<Token>, p: nat, e: Element)
    requires WellParameter(e) && Placed(ts, p, e.node.children)
    requires ts[End(p, e.node)].kind == Comma || ts[End(p, e.node)].kind == RBracket
    ensures p < |ts| && GenericOf(ts, p) == Done(p, e.node)
  {
    hide Placed, Upto, Bounds, WellBounds, Flat, Wanted, Typ, WellType;
    var cs := e.node.children;
    UptoEnds(p, cs);
    WantedAt(ts, p, cs, 0, Identifier);
    MadeAll(p, e.node, GenericParameter);
    if |cs| > 1 {
      TakenAt(ts, p, cs, 1);
      BoundsAt(ts, p, cs, 3);
      TypAt(ts, p, cs, 2);
    }
  }

  lemma {:induction false} BoundsAt(ts: seq<Token>, p: nat, cs: seq<Element>, k: nat)
    requires Placed(ts, p, cs) && k <= |cs| && WellBounds(cs[k..])
    requires ts[p + |Flat(cs)|].kind == Comma || ts[p + |Flat(cs)|].kind == RBracket
    ensures var q := Upto(p, cs, k).next;
            q < |ts| && (Ends(ts[q].kind) || ts[q].kind == Op(Plus))
    ensures Bounds(ts, Upto(p, cs, k)) == Upto(p, cs, |cs|)
    decreases |cs| - k
  {
    hide Placed, Upto, Flat, Typ, WellType;
    UptoEnds(p, cs);
    PlacedIn(ts, p, cs);
    if k < |cs| {
      assert cs[k..][0] == cs[k] && cs[k..][1] == cs[k + 1] && cs[k..][2..] == cs[k + 2..];
      TakenAt(ts, p, cs, k);
      BoundsAt(ts, p, cs, k + 2);
      TypAt(ts, p, cs, k + 1);
    }
  }

  // ------------------------------------------------------------------ lines

  /** The end of a line: its Newline, or the end of the block or the stream. */
  lemma LineAt(ts: seq<Token>, p: nat, cs: seq<Element>)
    requires Placed(ts, p, cs)
    requires Trimmed(cs) == cs ==> ts[p + |Flat(cs)|].kind == Dedent || ts[p + |Flat(cs)|].kind == Eof
    ensures |Trimmed(cs)| <= |cs| && Trimmed(cs) == cs[..|Trimmed(cs)|]
    ensures var acc := Upto(p, cs, |Trimmed(cs)|);
            acc.next < |ts| && IsLineEnd(ts[acc.next].kind) && LineTail(ts, acc) == Upto(p, cs, |cs|)
  {
    hide Placed, Upto, Recovered, Flat;
    UptoEnds(p, cs);
    PlacedIn(ts, p, cs);
    assert cs == cs[..|cs|];
    if Trimmed(cs) != cs {
      TakenAt(ts, p, cs, |cs| - 1);
    }
  }

  /** What stands after a line: the end of the block or the stream, if it has no Newline. */
  ghost predicate LineFollow(k: Kind, e: Element) {
    Unended(e) ==> k == Dedent || k == Eof
  }

  lemma LineEnds(ts: seq<Token>, p: nat, e: Element)
    requires e.Node? && IsLine(e.node.kind) && Placed(ts, p, e.node.children)
    requires LineFollow(ts[End(p, e.node)].kind, e)
    ensures var (cs, b) := (e.node.children, Trimmed(e.node.children));
            && |b| <= |cs| && b == cs[..|b|] && Upto(p, cs, |b|).next < |ts|
            && IsLineEnd(ts[Upto(p, cs, |b|).next].kind)
            && Made(e.node.kind.form, LineTail(ts, Upto(p, cs, |b|))) == Done(p, e.node)
    ensures forall k :: 0 <= k < |Trimmed(e.node.children)| ==> e.node.children[k] == Trimmed(e.node.children)[k]
  {
    hide Placed, Upto, LineTail, Flat, Trimmed;
    LineAt(ts, p, e.node.children);
    MadeAll(p, e.node, e.node.kind.form);
  }

  lemma LetAt(ts: seq<Token>, p: nat, e: Element)
    requires IsForm(e, LetStatement) && WellLet(Trimmed(e.node.children)) && Placed(ts, p, e.node.children)
    requires LineFollow(ts[End(p, e.node)].kind, e)
    ensures p < |ts| && (ts[p].kind == Word(Let) || ts[p].kind == Word(Var)) && LetOf(ts, p) == Done(p, e.node)
  {
    hide Placed, Upto, LineTail, Flat, Trimmed, Wanted, Exp, Annotated, Named, WellTupleOfNames, WellEntry, LineFollow;
    var (cs, b) := (e.node.children, Trimmed(e.node.children));
    UptoEnds(p, cs);
    LineEnds(ts, p, e);
    TakenAt(ts, p, cs, 0);
    ExpAt(ts, p, cs, |b| - 1);
    WantedAt(ts, p, cs, |b| - 2, Assign);
    AnnotationAt(ts, p, cs, |b| - 2);
    NameAt(ts, p, cs, 1);
  }

  /** The type of a binding, or none. */
  lemma AnnotationAt(ts: seq<Token>, p: nat, cs: seq<Element>, end: nat)
    requires Placed(ts, p, cs) && end < |cs| && IsLeaf(cs[end], Assign) && (end == 2 || end == 4)
    requires end == 4 ==> IsLeaf(cs[2], Colon) && WellEntry(cs[3], Types)
    ensures Upto(p, cs, 2).next < |ts| && Annotated(ts, Upto(p, cs, 2)) == Upto(p, cs, end)
  {
    hide Placed, Upto, Flat, Typ, WellEntry;
    PlacedIn(ts, p, cs);
    TakenAt(ts, p, cs, end);
    if end == 4 {
      TakenAt(ts, p, cs, 2);
      TypAt(ts, p, cs, 3);
    }
  }

  lemma NameAt(ts: seq<Token>, p: nat, cs: seq<Element>, k: nat)
    requires Placed(ts, p, cs) && k < |cs| && (IsLeaf(cs[k], Identifier) || WellTupleOfNames(cs[k]))
    ensures Upto(p, cs, k).next < |ts| && Named(ts, Upto(p, cs, k)) == Upto(p, cs, k + 1)
  {
    hide Placed, Upto, BindingTupleOf, WellListed, Flat;
    PlacedIn(ts, p, cs);
    if cs[k].Leaf? {
      WantedAt(ts, p, cs, k, Identifier);
    } else {
      NestedAt(ts, p, cs, k);
      TupleOfNamesAt(ts, Upto(p, cs, k).next, cs[k]);
    }
  }

  lemma ReturnAt(ts: seq<Token>, p: nat, e: Element)
    requires IsForm(e, ReturnStatement) && WellLine(ReturnStatement, Trimmed(e.node.children))
    requires Placed(ts, p, e.node.children) && LineFollow(ts[End(p, e.node)].kind, e)
    ensures p < |ts| && ts[p].kind == Word(Return) && ReturnOf(ts, p) == Done(p, e.node)
  {
    hide Placed, Upto, LineTail, Flat, Trimmed, Exp, Well, LineFollow;
    var (cs, b) := (e.node.children, Trimmed(e.node.children));
    UptoEnds(p, cs);
    LineEnds(ts, p, e);
    TakenAt(ts, p, cs, 0);
    if |b| == 2 {
      ExpAt(ts, p, cs, 1);
    }
  }

  lemma SimpleAt(ts: seq<Token>, p: nat, e: Element, word: Keyword)
    requires || (IsForm(e, BreakStatement) && word == Break)
             || (IsForm(e, ContinueStatement) && word == Continue)
             || (IsForm(e, PassStatement) && word == Pass)
    requires WellLine(e.node.kind.form, Trimmed(e.node.children))
    requires Placed(ts, p, e.node.children) && LineFollow(ts[End(p, e.node)].kind, e)
    ensures p < |ts| && ts[p].kind == Word(word) && SimpleOf(ts, p, e.node.kind.form) == Done(p, e.node)
  {
    hide Placed, Upto, LineTail, Flat, Trimmed, LineFollow;
    UptoEnds(p, e.node.children);
    LineEnds(ts, p, e);
    TakenAt(ts, p, e.node.children, 0);
  }

  lemma AssignmentAt(ts: seq<Token>, p: nat, e: Element)
    requires e.Node? && (e.node.kind == Outer(AssignmentStatement) || e.node.kind == Outer(ExpressionStatement))
    requires WellLine(e.node.kind.form, Trimmed(e.node.children))
    requires Placed(ts, p, e.node.children) && LineFollow(ts[End(p, e.node)].kind, e)
    ensures p < |ts| && Starts(ts[p].kind) && AssignmentOf(ts, p) == Done(p, e.node)
  {
    hide Placed, Upto, LineTail, Flat, Trimmed, Exp, Well, LineFollow, Starts;
    var (cs, b) := (e.node.children, Trimmed(e.node.children));
    UptoEnds(p, cs);
    LineEnds(ts, p, e);
    if |b| == 3 {
      TakenAt(ts, p, cs, 1);
      ExpAt(ts, p, cs, 2);
    }
    ExpAt(ts, p, cs, 0);
  }

  /** A child past the `pub` in front. */
  lemma BareAt(ts: seq<Token>, p: nat, cs: seq<Element>) returns (k: nat)
    requires Placed(ts, p, cs) && Bare(cs) != [] && !IsLeaf(Bare(cs)[0], Word(Pub)) && Bare(cs)[0].Leaf?
    ensures k <= 1 && cs[k..] == Bare(cs) && k < |cs| && Upto(p, cs, k).next < |ts| && p < |ts|
    ensures Allowed(ts, Start(p), Word(Pub)) == Upto(p, cs, k)
    ensures ts[Upto(p, cs, k).next] == Bare(cs)[0].token && (k == 1 ==> ts[p].kind == Word(Pub))
    ensures k == 1 ==> Upto(p, cs, k).next == p + 1
    ensures k == 0 ==> Upto(p, cs, k).next == p
  {
    hide Placed, Upto, Flat;
    UptoEnds(p, cs);
    TakenAt(ts, p, cs, 0);
    if IsLeaf(cs[0], Word(Pub)) {
      k := 1;
      assert cs[1..][0] == cs[1];
      TakenAt(ts, p, cs, 1);
    } else {
      k := 0;
    }
  }

  lemma FieldAt(ts: seq<Token>, p: nat, e: Element)
    requires WellField(e) && Placed(ts, p, e.node.children) && LineFollow(ts[End(p, e.node)].kind, e)
    ensures p < |ts| && FieldOf(ts, p) == Done(p, e.node)
  {
    hide Placed, Upto, LineTail, Flat, Trimmed, Wanted, Typ, WellEntry, LineFollow;
    var (cs, b) := (e.node.children, Trimmed(e.node.children));
    LineEnds(ts, p, e);
    BareTrimmed(cs);
    PlacedIn(ts, p, cs);
    var k := BareAt(ts, p, cs);
    FieldParts(cs, k);
    WantedAt(ts, p, cs, k, Identifier);
    WantedAt(ts, p, cs, k + 1, Colon);
    if |b| == k + 4 {
      WantedAt(ts, p, cs, k + 3, Comma);
    } else {
      AllowedNot(ts, Upto(p, cs, k + 3), Comma);
    }
    TypAt(ts, p, cs, k + 2);
  }

  lemma FieldParts(cs: seq<Element>, k: nat)
    requires k <= |cs| && cs[k..] == Bare(cs) && WellField(Node(SyntaxNode(Outer(Field), cs)))
    ensures |Trimmed(cs)| == k + 3 || (|Trimmed(cs)| == k + 4 <= |cs| && IsLeaf(cs[k + 3], Comma))
    ensures k + 3 <= |cs| && IsLeaf(cs[k], Identifier) && IsLeaf(cs[k + 1], Colon) && WellEntry(cs[k + 2], Types)
  {
    hide WellEntry;
    BareTrimmed(cs);
    var t := Trimmed(cs);
    assert |Bare(cs)| == |cs| - k;
    assert Bare(t) == t[k..] && t == cs[..|t|];
    assert t[k] == cs[k] && t[k + 1] == cs[k + 1] && t[k + 2] == cs[k + 2];
  }

  lemma BareTrimmed(cs: seq<Element>)
    requires |Bare(Trimmed(cs))| >= 3
    ensures |Bare(cs)| >= 3 && Bare(cs)[..|Bare(Trimmed(cs))|] == Bare(Trimmed(cs))
    ensures |Trimmed(cs)| == |Bare(Trimmed(cs))| + if IsLeaf(cs[0], Word(Pub)) then 1 else 0
    ensures |cs| >= 3 && |Bare(cs)| == |cs| - if IsLeaf(cs[0], Word(Pub)) then 1 else 0
  {
  }

  // ------------------------------------------------------------------ statements

  /** A body begins with a colon, which ends what stands before it. */
  lemma ColonAt(ts: seq<Token>, p: nat, cs: seq<Element>, k: nat, what: Content)
    requires Placed(ts, p, cs) && k < |cs| && WellBlock(cs[k], what)
    ensures Upto(p, cs, k).next < |ts| && ts[Upto(p, cs, k).next].kind == Colon
  {
    hide Placed, Upto, Flat, WellBody, LeavesOf;
    FirstLeaf(cs[k]);
    EntryHere(ts, p, cs, k);
  }

  /** Adding a body to an open node. */
  lemma {:induction false} BodiedAt(ts: seq<Token>, p: nat, cs: seq<Element>, k: nat)
    requires Placed(ts, p, cs) && k < |cs| && WellBlock(cs[k], OfStatements)
    ensures Upto(p, cs, k).next < |ts| && ts[Upto(p, cs, k).next].kind == Colon
    ensures Bodied(ts, Upto(p, cs, k)) == Upto(p, cs, k + 1)
    decreases cs, 2
  {
    hide Placed, Upto, Flat, WellBlock, Body, BlockStart;
    ColonAt(ts, p, cs, k, OfStatements);
    PlacedIn(ts, p, cs);
    assert cs[k].Node? by {
      BlockNode(cs[k], OfStatements);
    }
    NestedAt(ts, p, cs, k);
    BlockAt(ts, Upto(p, cs, k).next, cs[k], OfStatements);
  }

  lemma BlockNode(e: Element, what: Content)
    requires WellBlock(e, what)
    ensures e.Node? && |e.node.children| > 3 && IsForm(e, Block)
  {
  }

  lemma {:induction false} StatementAt(ts: seq<Token>, p: nat, e: Element)
    requires WellStatement(e) && Placed(ts, p, e.node.children) && LineFollow(ts[End(p, e.node)].kind, e)
    requires ts[End(p, e.node)].kind != Word(Else)
    ensures p < |ts| && ts[p].kind != Eof && StatementOf(ts, p) == Done(p, e.node)
    decreases e, 4
  {
    hide StatementOf, LineFollow, Placed, Trimmed, WellLine, WellBlock, WellElse, WellEntry;
    match e.node.kind.form
    case IfStatement | MatchStatement | ForStatement | WhileStatement | UnsafeBlock => BranchAt(ts, p, e);
    case _ => LineStatementAt(ts, p, e);
  }

  lemma LineStatementAt(ts: seq<Token>, p: nat, e: Element)
    requires e.Node? && e.node.kind.Outer? && WellLine(e.node.kind.form, Trimmed(e.node.children))
    requires Placed(ts, p, e.node.children) && LineFollow(ts[End(p, e.node)].kind, e)
    ensures p < |ts| && ts[p].kind != Eof && StatementOf(ts, p) == Done(p, e.node)
  {
    hide LetOf, ReturnOf, SimpleOf, IfOf, MatchOf, ForOf, ConditionalOf, UnsafeOf, AssignmentOf, LineFollow, Placed,
      Trimmed, WellEntry, WellLet, Flat;
    PlacedIn(ts, p, e.node.children);
    match e.node.kind.form
    case LetStatement => LetAt(ts, p, e);
    case ReturnStatement => ReturnAt(ts, p, e);
    case BreakStatement => SimpleAt(ts, p, e, Break);
    case ContinueStatement => SimpleAt(ts, p, e, Continue);
    case PassStatement => SimpleAt(ts, p, e, Pass);
    case AssignmentStatement => AssignmentAt(ts, p, e);
    case ExpressionStatement => AssignmentAt(ts, p, e);
  }

  lemma {:induction false} BranchAt(ts: seq<Token>, p: nat, e: Element)
    requires WellStatement(e) && Placed(ts, p, e.node.children) && ts[End(p, e.node)].kind != Word(Else)
    requires IsBranch(e)
    ensures p < |ts| && ts[p].kind != Eof && StatementOf(ts, p) == Done(p, e.node)
    decreases e, 4, 0
  {
    hide LetOf, ReturnOf, SimpleOf, IfOf, MatchOf, ForOf, ConditionalOf, UnsafeOf, AssignmentOf, Placed, WellStatement,
      Flat;
    PlacedIn(ts, p, e.node.children);
    match e.node.kind.form
    case IfStatement => IfAt(ts, p, e);
    case MatchStatement => MatchAt(ts, p, e);
    case ForStatement => ForAt(ts, p, e);
    case WhileStatement => WhileAt(ts, p, e);
    case UnsafeBlock => UnsafeAt(ts, p, e);
  }

  lemma IfShape(e: Element)
    requires IsForm(e, IfStatement) && WellStatement(e)
    ensures var cs := e.node.children;
            && (|cs| == 3 || (|cs| == 4 && WellElse(cs[3])))
            && IsLeaf(cs[0], Word(If)) && WellEntry(cs[1], Exprs) && WellBlock(cs[2], OfStatements)
  {
    hide WellElse, WellEntry, WellBlock;
  }

  lemma {:induction false} IfAt(ts: seq<Token>, p: nat, e: Element)
    requires IsForm(e, IfStatement) && WellStatement(e) && Placed(ts, p, e.node.children)
    requires ts[End(p, e.node)].kind != Word(Else)
    ensures p < |ts| && ts[p].kind == Word(If) && IfOf(ts, p) == Done(p, e.node)
    decreases e, 3
  {
    hide Placed, Upto, Flat, Exp, WellBlock, WellEntry, Bodied, ElseOf, WellElse, WellStatement;
    var cs := e.node.children;
    IfShape(e);
    UptoEnds(p, cs);
    PlacedIn(ts, p, cs);
    TakenAt(ts, p, cs, 0);
    BodiedAt(ts, p, cs, 2);
    ExpAt(ts, p, cs, 1);
    if |cs| == 4 {
      ElseAdded(ts, p, cs, 3);
    }
    MadeAll(p, e.node, IfStatement);
  }

  lemma {:induction false} ElseAdded(ts: seq<Token>, p: nat, cs: seq<Element>, k: nat)
    requires Placed(ts, p, cs) && k < |cs| && WellElse(cs[k])
    ensures var acc := Upto(p, cs, k);
            && acc.next < |ts| && ts[acc.next].kind == Word(Else)
            && Nested(acc, ElseOf(ts, acc.next)) == Upto(p, cs, k + 1)
    decreases cs, 2
  {
    hide Placed, Upto, Flat, ElseOf, WellElse;
    ElseNode(cs[k]);
    NestedAt(ts, p, cs, k);
    ElseAt(ts, Upto(p, cs, k).next, cs[k]);
  }

  lemma ElseNode(e: Element)
    requires WellElse(e)
    ensures e.Node?
  {
  }

  lemma {:induction false} ElseAt(ts: seq<Token>, p: nat, e: Element)
    requires WellElse(e) && Placed(ts, p, e.node.children)
    ensures p < |ts| && ts[p].kind == Word(Else) && ElseOf(ts, p) == Done(p, e.node)
    decreases e, 3
  {
    hide Placed, Upto, Flat, WellBlock, Bodied;
    var cs := e.node.children;
    UptoEnds(p, cs);
    TakenAt(ts, p, cs, 0);
    BodiedAt(ts, p, cs, 1);
    MadeAll(p, e.node, ElseClause);
  }

  lemma {:induction false} WhileAt(ts: seq<Token>, p: nat, e: Element)
    requires IsForm(e, WhileStatement) && WellStatement(e) && Placed(ts, p, e.node.children)
    ensures p < |ts| && ts[p].kind == Word(While) && ConditionalOf(ts, p, WhileStatement) == Done(p, e.node)
    decreases e, 3
  {
    hide Placed, Upto, Flat, Exp, WellBlock, WellEntry, Bodied;
    var cs := e.node.children;
    UptoEnds(p, cs);
    TakenAt(ts, p, cs, 0);
    BodiedAt(ts, p, cs, 2);
    ExpAt(ts, p, cs, 1);
    MadeAll(p, e.node, WhileStatement);
  }

  lemma {:induction false} ForAt(ts: seq<Token>, p: nat, e: Element)
    requires IsForm(e, ForStatement) && WellStatement(e) && Placed(ts, p, e.node.children)
    ensures p < |ts| && ts[p].kind == Word(For) && ForOf(ts, p) == Done(p, e.node)
    decreases e, 3
  {
    hide Placed, Upto, Flat, Exp, WellBlock, WellEntry, Bodied, Wanted;
    var cs := e.node.children;
    UptoEnds(p, cs);
    TakenAt(ts, p, cs, 0);
    WantedAt(ts, p, cs, 1, Identifier);
    WantedAt(ts, p, cs, 2, Word(In));
    BodiedAt(ts, p, cs, 4);
    ExpAt(ts, p, cs, 3);
    MadeAll(p, e.node, ForStatement);
  }

  lemma {:induction false} UnsafeAt(ts: seq<Token>, p: nat, e: Element)
    requires IsForm(e, UnsafeBlock) && WellStatement(e) && Placed(ts, p, e.node.children)
    ensures p + 1 < |ts| && ts[p].kind == Word(Unsafe) && ts[p + 1].kind == Colon && UnsafeOf(ts, p) == Done(p, e.node)
    decreases e, 3
  {
    hide Placed, Upto, Flat, WellBlock, Bodied;
    var cs := e.node.children;
    UptoEnds(p, cs);
    TakenAt(ts, p, cs, 0);
    BodiedAt(ts, p, cs, 1);
    MadeAll(p, e.node, UnsafeBlock);
  }

  lemma {:induction false} MatchAt(ts: seq<Token>, p: nat, e: Element)
    requires IsForm(e, MatchStatement) && WellStatement(e) && Placed(ts, p, e.node.children)
    ensures p < |ts| && ts[p].kind == Word(Match) && MatchOf(ts, p) == Done(p, e.node)
    decreases e, 3
  {
    hide Placed, Upto, Flat, Exp, WellBlock, WellEntry, Arms, BlockStart;
    var cs := e.node.children;
    UptoEnds(p, cs);
    TakenAt(ts, p, cs, 0);
    ColonAt(ts, p, cs, 2, OfArms);
    ExpAt(ts, p, cs, 1);
    BlockNode(cs[2], OfArms);
    NestedAt(ts, p, cs, 2);
    BlockAt(ts, Upto(p, cs, 2).next, cs[2], OfArms);
    MadeAll(p, e.node, MatchStatement);
  }

  lemma {:induction false} ArmAt(ts: seq<Token>, p: nat, e: Element)
    requires WellArm(e) && Placed(ts, p, e.node.children) && p < |ts| && ts[p].kind != Eof && ts[p].kind != Dedent
    ensures ArmOf(ts, p) == Done(p, e.node)
    decreases e, 4
  {
    hide Placed, Upto, Flat, WellBlock, Bodied, PatternOf, WellPattern, WellGuard, Guarded;
    var cs := e.node.children;
    UptoEnds(p, cs);
    PlacedIn(ts, p, cs);
    BodiedAt(ts, p, cs, |cs| - 1);
    if |cs| == 3 {
      GuardAt(ts, p, cs, 1);
    } else {
      GuardNot(ts, Upto(p, cs, 1));
    }
    PatternNode(cs[0]);
    NestedAt(ts, p, cs, 0);
    PatternAt(ts, p, cs[0]);
    MadeAll(p, e.node, MatchArm);
  }

  lemma GuardNot(ts: seq<Token>, acc: Listed)
    requires Stream(ts) && acc.next < |ts| && ts[acc.next].kind != Word(If)
    ensures Guarded(ts, acc) == acc
  {
  }

  lemma GuardAt(ts: seq<Token>, p: nat, cs: seq<Element>, k: nat)
    requires Placed(ts, p, cs) && k + 1 < |cs| && WellGuard(cs[k]) && WellBlock(cs[k + 1], OfStatements)
    ensures Upto(p, cs, k).next < |ts| && ts[Upto(p, cs, k).next].kind == Word(If)
    ensures Guarded(ts, Upto(p, cs, k)) == Upto(p, cs, k + 1)
  {
    hide Placed, Upto, Flat, WellBlock, Exp, WellEntry;
    var (q, gs) := (Upto(p, cs, k).next, cs[k].node.children);
    ColonAt(ts, p, cs, k + 1, OfStatements);
    NestedAt(ts, p, cs, k);
    UptoEnds(q, gs);
    TakenAt(ts, q, gs, 0);
    ExpAt(ts, q, gs, 1);
    MadeAll(q, cs[k].node, Guard);
  }

  // ------------------------------------------------------------------ blocks

  lemma {:induction false} BlockAt(ts: seq<Token>, p: nat, e: Element, what: Content)
    requires WellBlock(e, what) && Placed(ts, p, e.node.children)
    ensures p < |ts| && BlockOf(ts, p, what) == Some(Done(p, e.node))
    decreases e, 1
  {
    hide Placed, Upto, Flat, WellBody, LoopOf, Wanted;
    var cs := e.node.children;
    UptoEnds(p, cs);
    PlacedIn(ts, p, cs);
    WantedAt(ts, p, cs, 0, Colon);
    WantedAt(ts, p, cs, 1, Newline);
    WantedAt(ts, p, cs, 2, Indent);
    LoopAt(ts, p, cs, 3, what, false);
    MadeAll(p, e.node, Block);
  }

  lemma {:induction false} LoopAt(ts: seq<Token>, p: nat, cs: seq<Element>, k: nat, what: Content, any: bool)
    requires Placed(ts, p, cs) && k <= |cs| && WellBody(cs[k..], what, any)
    ensures Upto(p, cs, k).next < |ts|
    ensures LoopOf(ts, Upto(p, cs, k), what, any) == Some(Made(Block, Upto(p, cs, |cs|)))
    decreases cs, 6, |cs| - k
  {
    hide Placed, Upto, Flat, LoopOf, PartOf, WellPart, LeavesOf, LineFollow, Unended;
    PlacedIn(ts, p, cs);
    var rest := cs[k..];
    assert rest[0] == cs[k];
    if |rest| == 1 {
      WantedAt(ts, p, cs, k, Dedent);
      LoopStep(ts, Upto(p, cs, k), what, any);
    } else if cs[k].Leaf? {
      assert rest[1..] == cs[k + 1..];
      TakenAt(ts, p, cs, k);
      LoopAt(ts, p, cs, k + 1, what, any);
      LoopStep(ts, Upto(p, cs, k), what, any);
    } else {
      assert rest[1] == cs[k + 1] && rest[1..] == cs[k + 1..];
      PartBegins(cs[k], what);
      EntryHere(ts, p, cs, k);
      NestedAt(ts, p, cs, k);
      PartFollow(ts, p, cs, k, what);
      PartAt(ts, Upto(p, cs, k).next, cs[k], what);
      LoopAt(ts, p, cs, k + 1, what, true);
      LoopStep(ts, Upto(p, cs, k), what, any);
    }
  }

  /** What begins a part of a block neither ends it nor continues what stands before it. */
  predicate Begins(k: Kind) {
    !IsLineEnd(k) && k != Word(Else)
  }

  lemma PartBegins(e: Element, what: Content)
    requires WellPart(e, what)
    ensures e.Node? && LeavesOf(e) != [] && Begins(LeavesOf(e)[0].kind)
  {
    hide LeavesOf, WellStatement, WellArm, WellItem, WellField, WellPass, Begins;
    match what
    case OfStatements => StatementBegins(e);
    case OfArms => ArmBegins(e);
    case OfItems =>
      if WellPass(e) {
        PassBegins(e);
      } else {
        ItemBegins(e);
      }
    case OfFields =>
      if WellPass(e) {
        PassBegins(e);
      } else {
        FieldBegins(e);
      }
  }

  lemma ArmBegins(e: Element)
    requires WellArm(e)
    ensures e.Node? && LeavesOf(e) != [] && Begins(LeavesOf(e)[0].kind)
  {
    hide LeavesOf, WellBlock, WellPattern, WellGuard;
    FirstLeaf(e);
    PatternBegins(e.node.children[0]);
  }

  lemma PassBegins(e: Element)
    requires WellPass(e)
    ensures e.Node? && LeavesOf(e) != [] && Begins(LeavesOf(e)[0].kind)
  {
    hide LeavesOf;
    FirstLeaf(e);
  }

  lemma FieldBegins(e: Element)
    requires WellField(e)
    ensures e.Node? && LeavesOf(e) != [] && Begins(LeavesOf(e)[0].kind)
  {
    hide LeavesOf, WellField;
    FieldFirstChild(e);
    FirstLeaf(e);
  }

  lemma FieldFirstChild(e: Element)
    requires WellField(e)
    ensures e.Node? && e.node.children != []
    ensures IsLeaf(e.node.children[0], Word(Pub)) || IsLeaf(e.node.children[0], Identifier)
  {
    hide WellEntry;
    BareTrimmed(e.node.children);
  }

  lemma ItemBegins(e: Element)
    requires WellItem(e)
    ensures e.Node? && LeavesOf(e) != [] && Begins(LeavesOf(e)[0].kind)
  {
    hide LeavesOf, WellBlock, WellOptions;
    FirstLeaf(e);
  }

  predicate IsBranch(e: Element) {
    IsForm(e, IfStatement) || IsForm(e, MatchStatement) || IsForm(e, ForStatement) || IsForm(e, WhileStatement)
    || IsForm(e, UnsafeBlock)
  }

  /** A statement with a body begins with its keyword; any other is a line. */
  lemma StatementKinds(e: Element)
    requires WellStatement(e)
    ensures e.Node? && e.node.kind.Outer?
    ensures if IsBranch(e) then
              && e.node.children != [] && e.node.children[0].Leaf?
              && e.node.children[0].token.kind in {Word(If), Word(Match), Word(For), Word(While), Word(Unsafe)}
            else WellLine(e.node.kind.form, Trimmed(e.node.children))
  {
    hide WellBlock, WellElse, WellEntry, WellLine, Trimmed;
  }

  lemma StatementBegins(e: Element)
    requires WellStatement(e)
    ensures e.Node? && LeavesOf(e) != [] && Begins(LeavesOf(e)[0].kind)
  {
    hide LeavesOf, WellStatement, WellLine, Trimmed, IsBranch;
    StatementKinds(e);
    if IsBranch(e) {
      FirstLeaf(e);
    } else {
      LineBegins(e);
    }
  }

  lemma LineBegins(e: Element)
    requires e.Node? && e.node.kind.Outer? && WellLine(e.node.kind.form, Trimmed(e.node.children))
    ensures LeavesOf(e) != [] && Begins(LeavesOf(e)[0].kind)
  {
    hide LeavesOf, Flat, Well, WellType, WellTupleOfNames;
    var cs := e.node.children;
    assert Trimmed(cs) != [] && cs[0] == Trimmed(cs)[0];
    FirstLeaf(e);
    if cs[0].Node? {
      EntryStarts(cs[0], Exprs);
    }
  }

  /** A line without its Newline stands before the Dedent, and nothing before an `else`. */
  lemma PartFollow(ts: seq<Token>, p: nat, cs: seq<Element>, k: nat, what: Content)
    requires Placed(ts, p, cs) && k + 1 < |cs| && (Unended(cs[k]) ==> IsLeaf(cs[k + 1], Dedent))
    requires cs[k + 1].Node? ==> WellPart(cs[k + 1], what)
    requires cs[k + 1].Leaf? ==> IsLeaf(cs[k + 1], Newline) || IsLeaf(cs[k + 1], Dedent)
    ensures var q := Upto(p, cs, k + 1).next;
            q < |ts| && LineFollow(ts[q].kind, cs[k]) && ts[q].kind != Word(Else)
  {
    hide Placed, Upto, Flat, WellPart, LeavesOf, Unended;
    if cs[k + 1].Leaf? {
      TakenAt(ts, p, cs, k + 1);
    } else {
      PartBegins(cs[k + 1], what);
      EntryHere(ts, p, cs, k + 1);
    }
  }

  lemma {:induction false} PartAt(ts: seq<Token>, p: nat, e: Element, what: Content)
    requires WellPart(e, what) && e.Node? && Placed(ts, p, e.node.children)
    requires LineFollow(ts[End(p, e.node)].kind, e) && ts[End(p, e.node)].kind != Word(Else)
    requires p < |ts| && Begins(ts[p].kind)
    ensures PartOf(ts, p, what) == Some(Done(p, e.node))
    decreases e, 5
  {
    hide Placed, StatementOf, ArmOf, ItemOf, FieldOf, SimpleOf, WellStatement, WellArm, WellItem, WellField, LineFollow;
    match what
    case OfStatements => StatementAt(ts, p, e);
    case OfArms => ArmAt(ts, p, e);
    case OfItems =>
      if WellPass(e) {
        SimpleAt(ts, p, e, Pass);
      } else {
        ItemAt(ts, p, e);
      }
    case OfFields =>
      if WellPass(e) {
        SimpleAt(ts, p, e, Pass);
      } else {
        FieldAt(ts, p, e);
        FieldFirst(ts, p, e);
      }
  }

  lemma FieldFirst(ts: seq<Token>, p: nat, e: Element)
    requires WellField(e) && Placed(ts, p, e.node.children)
    ensures p < |ts| && ts[p].kind != Word(Pass)
  {
    hide Placed, Upto, Flat, WellEntry;
    UptoEnds(p, e.node.children);
    TakenAt(ts, p, e.node.children, 0);
  }

  // ------------------------------------------------------------------ items

  lemma ItemForms(e: Element)
    requires WellItem(e)
    ensures IsForm(e, Module) || IsForm(e, StructItem) || IsForm(e, TestItem)
  {
    hide WellBlock, WellOptions;
  }

  lemma {:induction false} ItemAt(ts: seq<Token>, p: nat, e: Element)
    requires WellItem(e) && Placed(ts, p, e.node.children)
    ensures p < |ts| && Begins(ts[p].kind) && ts[p].kind != Word(Pass) && ItemOf(ts, p) == Some(Done(p, e.node))
    decreases e, 4
  {
    hide Placed, ItemOf, WellItem;
    ItemForms(e);
    match e.node.kind.form
    case Module => ModuleAt(ts, p, e);
    case StructItem => StructAt(ts, p, e);
    case TestItem => TestAt(ts, p, e);
  }

  /** What an item is classified by, past `pub`. */
  lemma HeadAt(ts: seq<Token>, p: nat, word: Keyword)
    requires Stream(ts) && p < |ts| && word != Pub && word != Unsafe
    requires ts[p].kind == Word(word) || (ts[p].kind == Word(Pub) && ts[p + 1].kind == Word(word))
    ensures Head(ts, p) == Word(word) && !UnsafeModule(ts, p)
  {
    assert NewlinesEnd(ts, p) == p;
    if ts[p].kind == Word(Pub) {
      assert MarksEnd(ts, p) == MarksEnd(ts, p + 1) == p + 1;
    }
  }

  /** A module that is not unsafe is its head and its body. */
  lemma ModuleStep(ts: seq<Token>, p: nat)
    requires Stream(ts) && p < |ts| && Head(ts, p) == Word(Mod) && !UnsafeModule(ts, p)
    ensures var body := BlockOf(ts, ModuleHead(ts, p).next, OfItems);
            body.Some? ==> ItemOf(ts, p) == Some(Made(Module, Nested(ModuleHead(ts, p), body.value)))
  {
    hide Head, UnsafeModule, ModuleHead, Members, BlockStart;
  }

  lemma {:induction false} ModuleAt(ts: seq<Token>, p: nat, e: Element)
    requires IsForm(e, Module) && WellItem(e) && Placed(ts, p, e.node.children)
    ensures p < |ts| && (ts[p].kind == Word(Pub) || ts[p].kind == Word(Mod)) && ItemOf(ts, p) == Some(Done(p, e.node))
    decreases e, 3
  {
    hide Placed, Upto, Flat, WellBlock, ItemOf, Head, UnsafeModule, BlockOf, Wanted;
    var cs := e.node.children;
    UptoEnds(p, cs);
    PlacedIn(ts, p, cs);
    var k := BareAt(ts, p, cs);
    assert cs[k..][0] == cs[k] && cs[k..][1] == cs[k + 1] && cs[k..][2] == cs[k + 2];
    HeadAt(ts, p, Mod);
    WantedAt(ts, p, cs, k, Word(Mod));
    WantedAt(ts, p, cs, k + 1, Identifier);
    BlockNode(cs[k + 2], OfItems);
    NestedAt(ts, p, cs, k + 2);
    BlockAt(ts, Upto(p, cs, k + 2).next, cs[k + 2], OfItems);
    ModuleStep(ts, p);
    MadeAll(p, e.node, Module);
  }

  lemma {:induction false} TestAt(ts: seq<Token>, p: nat, e: Element)
    requires IsForm(e, TestItem) && WellItem(e) && Placed(ts, p, e.node.children)
    ensures p < |ts| && ts[p].kind == Word(Test) && ItemOf(ts, p) == Some(Done(p, e.node))
    decreases e, 3
  {
    hide Placed, Upto, Flat, WellBlock, Head, UnsafeModule, Wanted, Bodied, Members, ModuleHead, StructHead, Recovered;
    var cs := e.node.children;
    UptoEnds(p, cs);
    PlacedIn(ts, p, cs);
    WantedAt(ts, p, cs, 0, Word(Test));
    HeadAt(ts, p, Test);
    WantedAt(ts, p, cs, 1, Identifier);
    BodiedAt(ts, p, cs, 2);
    MadeAll(p, e.node, TestItem);
  }

  lemma StructStep(ts: seq<Token>, p: nat)
    requires Stream(ts) && p < |ts| && Head(ts, p) == Word(Struct)
    ensures var body := BlockOf(ts, StructHead(ts, p).next, OfFields);
            body.Some? ==> ItemOf(ts, p) == Some(Made(StructItem, Nested(StructHead(ts, p), body.value)))
  {
    hide Head, StructHead, Members, BlockStart;
  }

  lemma StructShape(e: Element)
    requires IsForm(e, StructItem) && WellItem(e)
    ensures var (all, cs) := (e.node.children, Bare(e.node.children));
            && 3 <= |cs| && IsLeaf(cs[0], Word(Struct)) && IsLeaf(cs[1], Identifier)
            && WellOptions(cs[2..|cs| - 1]) && all != [] && WellBlock(all[|all| - 1], OfFields)
  {
    hide WellBlock, WellOptions;
  }

  lemma {:induction false} StructAt(ts: seq<Token>, p: nat, e: Element)
    requires IsForm(e, StructItem) && WellItem(e) && Placed(ts, p, e.node.children)
    ensures p < |ts| && (ts[p].kind == Word(Pub) || ts[p].kind == Word(Struct))
    ensures ItemOf(ts, p) == Some(Done(p, e.node))
    decreases e, 3
  {
    hide Placed, Upto, Flat, WellBlock, ItemOf, Head, BlockOf, StructHead, WellOptions, WellItem, Bare;
    var cs := e.node.children;
    var last := |cs| - 1;
    UptoEnds(p, cs);
    PlacedIn(ts, p, cs);
    StructShape(e);
    var k := BareAt(ts, p, cs);
    assert cs[k..][0] == cs[k] && cs[k..][1] == cs[k + 1];
    assert Bare(cs)[2..|Bare(cs)| - 1] == cs[k + 2..last];
    HeadAt(ts, p, Struct);
    StructHeadAt(ts, p, cs, k);
    BlockNode(cs[last], OfFields);
    NestedAt(ts, p, cs, last);
    BlockAt(ts, Upto(p, cs, last).next, cs[last], OfFields);
    StructStep(ts, p);
    MadeAll(p, e.node, StructItem);
  }

  lemma StructHeadAt(ts: seq<Token>, p: nat, cs: seq<Element>, k: nat)
    requires k + 2 < |cs| && IsLeaf(cs[k], Word(Struct)) && IsLeaf(cs[k + 1], Identifier)
    requires Placed(ts, p, cs) && p < |ts| && Allowed(ts, Start(p), Word(Pub)) == Upto(p, cs, k)
    requires WellOptions(cs[k + 2..|cs| - 1]) && WellBlock(cs[|cs| - 1], OfFields)
    ensures StructHead(ts, p) == Upto(p, cs, |cs| - 1)
  {
    hide Placed, Upto, Flat, WellBlock, Wanted, Parametrized, Derived, WellOptions;
    WantedAt(ts, p, cs, k, Word(Struct));
    WantedAt(ts, p, cs, k + 1, Identifier);
    OptionsAt(ts, p, cs, k + 2);
  }

  lemma OptionsAt(ts: seq<Token>, p: nat, cs: seq<Element>, k: nat)
    requires k < |cs| && Placed(ts, p, cs) && WellOptions(cs[k..|cs| - 1]) && WellBlock(cs[|cs| - 1], OfFields)
    ensures Upto(p, cs, k).next < |ts| && Derived(ts, Parametrized(ts, Upto(p, cs, k))) == Upto(p, cs, |cs| - 1)
  {
    hide Placed, Upto, Flat, WellBlock, GenericsOf, DerivesOf, WellGenerics, WellDerives;
    PlacedIn(ts, p, cs);
    ColonAt(ts, p, cs, |cs| - 1, OfFields);
    var options := cs[k..|cs| - 1];
    if |options| == 2 {
      assert options[0] == cs[k] && options[1] == cs[k + 1];
      GenericsAt(ts, p, cs, k);
      DerivesAt(ts, p, cs, k + 1);
    } else if |options| == 1 {
      assert options[0] == cs[k];
      if WellGenerics(cs[k]) {
        GenericsAt(ts, p, cs, k);
      } else {
        DerivesAt(ts, p, cs, k);
      }
    }
  }

  lemma GenericsAt(ts: seq<Token>, p: nat, cs: seq<Element>, k: nat)
    requires Placed(ts, p, cs) && k < |cs| && WellGenerics(cs[k])
    ensures Upto(p, cs, k).next < |ts| && ts[Upto(p, cs, k).next].kind == LBracket
    ensures Parametrized(ts, Upto(p, cs, k)) == Upto(p, cs, k + 1)
  {
    hide Placed, Upto, Flat, Generics, WellListed;
    var (q, gs) := (Upto(p, cs, k).next, cs[k].node.children);
    NestedAt(ts, p, cs, k);
    UptoEnds(q, gs);
    TakenAt(ts, q, gs, 0);
    ListAt(ts, q, gs, 1, Parameters);
    MadeAll(q, cs[k].node, GenericParameters);
  }

  lemma DerivesAt(ts: seq<Token>, p: nat, cs: seq<Element>, k: nat)
    requires Placed(ts, p, cs) && k < |cs| && WellDerives(cs[k])
    ensures Upto(p, cs, k).next < |ts| && ts[Upto(p, cs, k).next].kind == LParen
    ensures Derived(ts, Upto(p, cs, k)) == Upto(p, cs, k + 1)
  {
    hide Placed, Upto, Flat, Derives, WellDerived, Wanted;
    var (q, ds) := (Upto(p, cs, k).next, cs[k].node.children);
    NestedAt(ts, p, cs, k);
    UptoEnds(q, ds);
    WantedAt(ts, q, ds, 0, LParen);
    TakenAt(ts, q, ds, 0);
    TakenAt(ts, q, ds, 1);
    DerivedAt(ts, q, ds, 1);
    MadeAll(q, cs[k].node, DeriveList);
  }

  lemma {:induction false} DerivedAt(ts: seq<Token>, p: nat, cs: seq<Element>, k: nat)
    requires Placed(ts, p, cs) && k < |cs| && IsName(cs[k]) && WellDerived(cs[k + 1..])
    ensures Upto(p, cs, k).next < |ts| && Derives(ts, Upto(p, cs, k)) == Upto(p, cs, |cs|)
    decreases |cs| - k
  {
    hide Placed, Upto, Flat, Derives, WellDerived, Pathed, WellPath;
    PlacedIn(ts, p, cs);
    var m := DerivedSplit(cs, k + 1);
    TakenAt(ts, p, cs, k);
    TakenAt(ts, p, cs, m);
    PathedAt(ts, p, cs, k, m);
    DerivesStep(ts, Upto(p, cs, k));
    if m + 1 < |cs| {
      if m + 2 == |cs| {
        WantedAt(ts, p, cs, m + 1, RParen);
        DerivesStep(ts, Upto(p, cs, m + 1));
      } else {
        DerivedAt(ts, p, cs, m + 1);
      }
    }
  }

  /** Where the path that is being read ends, and what stands there. */
  lemma {:induction false} DerivedSplit(cs: seq<Element>, k: nat) returns (m: nat)
    requires k <= |cs| && WellDerived(cs[k..])
    ensures k <= m < |cs| && WellPath(cs[k..m])
    ensures || (m + 1 == |cs| && IsLeaf(cs[m], RParen))
            || (m + 2 == |cs| && IsLeaf(cs[m], Comma) && IsLeaf(cs[m + 1], RParen))
            || (m + 2 < |cs| && IsLeaf(cs[m], Comma) && IsName(cs[m + 1]) && WellDerived(cs[m + 2..]))
    decreases |cs| - k
  {
    assert cs[k..][0] == cs[k];
    if |cs[k..]| > 1 {
      assert cs[k..][1] == cs[k + 1] && cs[k..][2..] == cs[k + 2..];
    }
    if |cs[k..]| > 1 && IsLeaf(cs[k], Dot) {
      m := DerivedSplit(cs, k + 2);
      assert cs[k..m][2..] == cs[k + 2..m];
    } else {
      m := k;
    }
  }

  // ------------------------------------------------------------------ files

  /** A file, its Eof set apart, from the `k`th child on. */
  lemma {:induction false} ItemsAt(ts: seq<Token>, cs: seq<Element>, end: Element, k: nat)
    requires Placed(ts, 0, cs) && k <= |cs| && WellItemsOf(cs[k..] + [end])
    requires end.Leaf? && |Flat(cs)| + 1 == |ts| && ts[|Flat(cs)|] == end.token && end.token.kind == Eof
    ensures Upto(0, cs, k).next < |ts|
    ensures Items(ts, Newlines(ts, Upto(0, cs, k)))
         == Some(Parsed(SyntaxNode(Outer(File), cs + [end]), |ts|, []))
    decreases |cs| - k
  {
    hide Placed, Upto, Flat, Items, ItemOf, WellItem;
    UptoEnds(0, cs);
    PlacedIn(ts, 0, cs);
    if k == |cs| {
      FileStep(ts, Upto(0, cs, k));
    } else {
      var rest := cs[k..] + [end];
      assert rest[0] == cs[k] && rest[1..] == cs[k + 1..] + [end];
      ItemsAt(ts, cs, end, k + 1);
      if cs[k].Leaf? {
        ItemNode(cs[k]);
        TakenAt(ts, 0, cs, k);
      } else {
        NestedAt(ts, 0, cs, k);
        ItemAt(ts, Upto(0, cs, k).next, cs[k]);
        FileStep(ts, Upto(0, cs, k));
        ItemBegins(cs[k]);
        EntryHere(ts, 0, cs, k);
      }
    }
  }

  lemma ItemNode(e: Element)
    ensures WellItem(e) ==> e.Node?
  {
  }

  /** Round trip: the tokens of a well-formed file are parsed to it, and nothing is reported. */
  lemma FileCompletes(n: SyntaxNode)
    requires WellFile(n) && Stream(Leaves(n))
    ensures FileOf(Leaves(n)) == Some(Parsed(n, |Leaves(n)|, []))
  {
    hide Items, Newlines, WellItemsOf, Flat;
    var (ts, cs) := (Leaves(n), n.children);
    FileEnds(cs);
    var (body, end) := (cs[..|cs| - 1], cs[|cs| - 1]);
    assert cs == body + [end];
    FlatAppend(body, [end]);
    FlatOne(end);
    assert ts == Flat(body) + [end.token];
    UptoEnds(0, body);
    assert body[0..] + [end] == cs;
    ItemsAt(ts, body, end, 0);
  }

  lemma {:induction false} FileEnds(cs: seq<Element>)
    requires WellItemsOf(cs)
    ensures cs != [] && IsLeaf(cs[|cs| - 1], Eof)
  {
    hide WellItem;
    if |cs| > 1 {
      FileEnds(cs[1..]);
    }
  }

  /** The grammar of files is unambiguous. */
  lemma FilesUnambiguous(m: SyntaxNode, n: SyntaxNode)
    requires WellFile(m) && WellFile(n) && Leaves(m) == Leaves(n) && Stream(Leaves(n))
    ensures m == n
  {
    hide WellFile, Leaves, FileOf;
    FileCompletes(m);
    FileCompletes(n);
  }
}
