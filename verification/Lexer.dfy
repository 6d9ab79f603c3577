/** The lexer's layout methods (src/lexer.rs:67-403, 901-992): its fields updated line by line, proved
    against the functions of `Layout`.
 */
module Lexer {
  import opened Layout
  import opened LayoutExact
  import opened LayoutGroups
  import opened LayoutRoundTrip
  import opened LayoutRules
  import opened Wrappers

  class Lexer {
    var tokens: seq<Tok>
    var diagnostics: nat
    var blockIndents: seq<nat>
    var delimiters: seq<Bracket>
    var pendingNewline: Option<nat>
    var activeStatementBase: Option<nat>
    var expectedBlockBase: Option<nat>
    var groupedLayoutBlocks: seq<Group>

    ghost function Now(): State
      reads this
    {
      State(tokens, diagnostics, blockIndents, delimiters, pendingNewline, activeStatementBase, expectedBlockBase,
            groupedLayoutBlocks)
    }

    ghost predicate Grounded()
      reads this
    {
      blockIndents != [] && blockIndents[0] == 0
    }

    constructor ()
      ensures Now() == Initial()
    {
      tokens, diagnostics, blockIndents, delimiters := [], 0, [0], [];
      pendingNewline, activeStatementBase, expectedBlockBase, groupedLayoutBlocks := None, None, None, [];
    }

    method EmitToken(t: Tok)
      modifies this`tokens
      ensures Now() == Emit(old(Now()), t)
    {
      tokens := tokens + [t];
    }

    method Error()
      modifies this`diagnostics
      ensures Now() == Fault(old(Now()))
    {
      diagnostics := diagnostics + 1;
    }

    /** The width of the leading indentation; a tab in it is reported once. */
    method MeasureIndentation(lead: seq<Blank>) returns (indent: nat)
      modifies this`diagnostics
      ensures indent == Width(lead)
      ensures Now() == if Tab in lead then Fault(old(Now())) else old(Now())
    {
      indent := 0;
      var reportedTab := false;
      for i := 0 to |lead|
        invariant indent == Width(lead[..i]) && reportedTab == (Tab in lead[..i])
        invariant Now() == if reportedTab then Fault(old(Now())) else old(Now())
      {
        assert lead[..i + 1][..i] == lead[..i];
        if lead[i].Space? {
          indent := indent + 1;
        } else {
          if !reportedTab {
            Error();
            reportedTab := true;
          }
          indent := (indent / 4 + 1) * 4;
        }
      }
      assert lead[..|lead|] == lead;
    }

    method LexPhysicalLine(line: Line)
      requires Grounded()
      modifies this
      ensures Now() == Step(old(Now()), line) && Grounded()
    {
      hide Width, BeginLine, LexLine, Ungroup, EndLine;
      StepBottom(Now(), line);
      var indent := MeasureIndentation(line.lead);
      if line.content.Nothing? {
        return;
      }
      var isDocComment := line.content.DocComment?;
      BeginPhysicalLine(indent, isDocComment);
      var tokenStart := |tokens|;
      if isDocComment {
        EmitToken(Doc);
      } else {
        LexKeeps(Now(), line.content.lexemes);
        LexLineTokens(line.content.lexemes);
      }
      UngroupKeeps(Now());
      CloseGroups();
      if |tokens| > tokenStart {
        EndPhysicalLine(indent, isDocComment);
      }
    }

    /** What begins a line with content: more of the active statement, or a new one. */
    method BeginPhysicalLine(indent: nat, isDocComment: bool)
      requires Grounded()
      modifies this
      ensures Now() == BeginLine(old(Now()), indent, isDocComment) && Grounded()
    {
      hide Prepare;
      if delimiters == [] || groupedLayoutBlocks != [] || expectedBlockBase.Some? {
        var continues := PrepareLogicalLine(indent, isDocComment);
        if !continues {
          activeStatementBase := Some(blockIndents[|blockIndents| - 1]);
        }
      } else if activeStatementBase.None? {
        activeStatementBase := Some(blockIndents[|blockIndents| - 1]);
      }
    }

    /** What ends a line that emitted tokens. */
    method EndPhysicalLine(indent: nat, isDocComment: bool)
      requires Grounded()
      modifies this
      ensures Now() == EndLine(old(Now()), indent, isDocComment) && Grounded()
    {
      var endsBlockHeader := tokens != [] && tokens[|tokens| - 1] == Plain(Colon);
      if delimiters == [] || groupedLayoutBlocks != [] || endsBlockHeader {
        if isDocComment {
          EmitToken(Newline);
          activeStatementBase := None;
        } else if endsBlockHeader {
          if delimiters != [] {
            var base := if activeStatementBase.Some? then activeStatementBase.value else indent;
            groupedLayoutBlocks := groupedLayoutBlocks + [Group(|delimiters|, base)];
          }
          EmitToken(Newline);
          expectedBlockBase, activeStatementBase := activeStatementBase, None;
          pendingNewline := None;
        } else {
          pendingNewline := Some(if activeStatementBase.Some? then activeStatementBase.value
                                 else blockIndents[|blockIndents| - 1]);
        }
      }
    }

    /** The loop that drops groups whose delimiters have closed. */
    method CloseGroups()
      requires Grounded()
      modifies this`groupedLayoutBlocks
      ensures Now() == Ungroup(old(Now()))
    {
      while groupedLayoutBlocks != []
        && |delimiters| < groupedLayoutBlocks[|groupedLayoutBlocks| - 1].delimiterDepth
        && blockIndents[|blockIndents| - 1] <= groupedLayoutBlocks[|groupedLayoutBlocks| - 1].baseIndent
        invariant Ungroup(Now()) == Ungroup(old(Now()))
        decreases |groupedLayoutBlocks|
      {
        groupedLayoutBlocks := groupedLayoutBlocks[..|groupedLayoutBlocks| - 1];
      }
    }

    method PrepareLogicalLine(indent: nat, isDocComment: bool) returns (continues: bool)
      requires Grounded()
      modifies this
      ensures (Now(), continues) == Prepare(old(Now()), indent, isDocComment) && Grounded()
    {
      hide Apply;
      if pendingNewline.Some? {
        if !isDocComment && indent == pendingNewline.value + 4 {
          pendingNewline := None;
          return true;
        }
        EmitToken(Newline);
        pendingNewline := None;
        activeStatementBase := None;
      }
      if expectedBlockBase.Some? {
        var base := expectedBlockBase.value;
        expectedBlockBase := None;
        if indent == base + 4 {
          EmitToken(Indent);
          blockIndents := blockIndents + [base + 4];
          return false;
        }
        Error();
        if indent > base {
          EmitToken(Indent);
          blockIndents := blockIndents + [base + 4];
          return false;
        }
      }
      ApplyIndentation(indent);
      continues := false;
    }

    method ApplyIndentation(indent: nat)
      requires Grounded()
      modifies this
      ensures Now() == Apply(old(Now()), indent) && Grounded()
    {
      var current := blockIndents[|blockIndents| - 1];
      if indent == current {
        return;
      }
      if indent > current {
        Error();
        return;
      }
      if indent !in blockIndents {
        Error();
      }
      CloseBlocks(indent);
    }

    /** The loop that closes the blocks deeper than `indent`. */
    method CloseBlocks(indent: nat)
      requires Grounded()
      modifies this`blockIndents, this`tokens
      ensures Now() == Pop(old(Now()), indent) && Grounded()
    {
      while blockIndents[|blockIndents| - 1] > indent
        invariant Grounded() && Pop(Now(), indent) == Pop(old(Now()), indent)
        decreases |blockIndents|
      {
        blockIndents := blockIndents[..|blockIndents| - 1];
        EmitToken(Dedent);
      }
    }

    method LexLineTokens(lexemes: seq<Lexeme>)
      modifies this`tokens, this`diagnostics, this`delimiters
      ensures Now() == LexLine(old(Now()), lexemes)
    {
      for i := 0 to |lexemes|
        invariant Now() == LexLine(old(Now()), lexemes[..i])
      {
        assert lexemes[..i + 1][..i] == lexemes[..i];
        HandleDelimiter(lexemes[i]);
        EmitToken(Plain(lexemes[i]));
      }
      assert lexemes[..|lexemes|] == lexemes;
    }

    method HandleDelimiter(l: Lexeme)
      modifies this`diagnostics, this`delimiters
      ensures Now() == Delimit(old(Now()), l)
    {
      match l
      case Open(b) => delimiters := delimiters + [b];
      case Close(b) =>
        if delimiters == [] {
          Error();
        } else {
          if delimiters[|delimiters| - 1] != b {
            Error();
          }
          delimiters := delimiters[..|delimiters| - 1];
        }
      case _ =>
    }

    method Finishes()
      requires Grounded()
      modifies this
      ensures Now() == Finish(old(Now()))
    {
      hide Pop;
      if pendingNewline.Some? {
        EmitToken(Newline);
        pendingNewline := None;
        activeStatementBase := None;
      } else if activeStatementBase.Some? {
        activeStatementBase := None;
        EmitToken(Newline);
      }
      if expectedBlockBase.Some? {
        expectedBlockBase := None;
        Error();
      }
      diagnostics := diagnostics + |delimiters|;
      delimiters := [];
      CloseBlocks(0);
      EmitToken(Eof);
    }

    /** `run`: a balanced stream for any lines at all, for a printed forest exactly its brackets, and of
        files without blocks in delimiters no other passes without a diagnostic. */
    method LexLines(lines: seq<Line>)
      requires Now() == Initial()
      modifies this
      ensures Now() == Lex(lines)
      ensures tokens != [] && tokens[|tokens| - 1] == Eof && NoEof(tokens[..|tokens| - 1]) && Nesting(tokens) == Some(0)
      ensures forall forest :: Well(forest, 0) && WithoutBlank(lines) == Print(forest, 0) ==>
                tokens == Bracketed(forest) + [Eof] && diagnostics == TabbedBlanks(lines)
      ensures forall entries :: WellEntries(entries, 0) && WithoutBlank(lines) == PrintEntries(entries, 0) ==>
                tokens == BracketedEntries(entries) + [Eof] && diagnostics == TabbedBlanks(lines)
      ensures Flat(0, lines) ==> (diagnostics == 0 <==> IsPrinted(lines) && TabbedBlanks(lines) == 0)
    {
      hide Step, Nesting, Well, Print, WithoutBlank, TabbedBlanks, Finish, Flat, IsPrinted,
        WellEntries, PrintEntries, BracketedEntries;
      for i := 0 to |lines|
        invariant Grounded() && Now() == Run(Initial(), lines[..i])
      {
        assert lines[..i + 1][..i] == lines[..i];
        LexPhysicalLine(lines[i]);
      }
      assert lines[..|lines|] == lines;
      Finishes();
      StreamBalanced(lines);
      forall forest | Well(forest, 0) && WithoutBlank(lines) == Print(forest, 0)
        ensures tokens == Bracketed(forest) + [Eof] && diagnostics == TabbedBlanks(lines)
      {
        LayoutInverts(lines, forest);
      }
      forall entries | WellEntries(entries, 0) && WithoutBlank(lines) == PrintEntries(entries, 0)
        ensures tokens == BracketedEntries(entries) + [Eof] && diagnostics == TabbedBlanks(lines)
      {
        GroupsInvert(lines, entries);
      }
      if Flat(0, lines) {
        LayoutExactly(lines);
      }
    }
  }
}
