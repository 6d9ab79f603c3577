/** The layout engine inverts a block printer: any forest of statements, printed at four spaces a
    level with blank and comment lines anywhere, however indented, becomes exactly its bracketed
    tokens.
 */
module LayoutRoundTrip {
  import opened Layout
  import opened LayoutRules
  import opened Wrappers

  /** A statement as it stands in a file: its first line, the lines that continue it, and a body
      when it is a block header.  The continuing lines carry their own indentation. */
  datatype Statement =
    | Documentation
    | Simple(first: seq<Lexeme>, more: seq<Part>)
    | Block(first: seq<Lexeme>, more: seq<Part>, body: seq<Statement>)

  datatype Part = Part(indent: nat, lexemes: seq<Lexeme>)

  // ------------------------------------------------------------------ printing

  function Spaces(n: nat): seq<Blank> {
    seq(n, _ => Space)
  }

  function Print(statements: seq<Statement>, base: nat): seq<Line>
    decreases statements, 1
  {
    if statements == [] then []
    else PrintOne(statements[0], base) + Print(statements[1..], base)
  }

  function PrintOne(s: Statement, base: nat): seq<Line>
    decreases s, 0
  {
    match s
    case Documentation => [Line(Spaces(base), DocComment)]
    case Simple(first, more) => PrintLogical(first, more, base)
    case Block(first, more, body) => PrintLogical(first, more, base) + Print(body, base + 4)
  }

  function PrintLogical(first: seq<Lexeme>, more: seq<Part>, base: nat): seq<Line> {
    [Line(Spaces(base), Code(first))] + PrintParts(more)
  }

  function PrintParts(more: seq<Part>): seq<Line> {
    if more == [] then [] else [Line(Spaces(more[0].indent), Code(more[0].lexemes))] + PrintParts(more[1..])
  }

  // ------------------------------------------------------------------ bracketing

  /** The tokens a forest stands for. */
  function Bracketed(statements: seq<Statement>): seq<Tok>
    decreases statements, 1
  {
    if statements == [] then [] else BracketedOne(statements[0]) + Bracketed(statements[1..])
  }

  function BracketedOne(s: Statement): seq<Tok>
    decreases s, 0
  {
    match s
    case Documentation => [Doc, Newline]
    case Simple(first, more) => Joined(first, more) + [Newline]
    case Block(first, more, body) => Joined(first, more) + [Newline, Indent] + Bracketed(body) + [Dedent]
  }

  function Joined(first: seq<Lexeme>, more: seq<Part>): seq<Tok>
    decreases more
  {
    if more == [] then Plains(first) else Plains(first) + Joined(more[0].lexemes, more[1..])
  }

  // ------------------------------------------------------------------ statements that can be written

  /** The delimiters open after the lexemes, if each closer matches. */
  function Opened(open: seq<Bracket>, lexemes: seq<Lexeme>): Option<seq<Bracket>> {
    if lexemes == [] then Some(open)
    else
      var before := Opened(open, lexemes[..|lexemes| - 1]);
      if before.None? then None
      else
        match lexemes[|lexemes| - 1]
        case Open(b) => Some(before.value + [b])
        case Close(b) =>
          if before.value != [] && before.value[|before.value| - 1] == b then
            Some(before.value[..|before.value| - 1])
          else None
        case _ => before
  }

  predicate EndsInColon(lexemes: seq<Lexeme>) {
    lexemes != [] && lexemes[|lexemes| - 1] == Colon
  }

  /** The lines of one logical statement: no line is empty, delimiters match and are closed at the
      end, only a header ends in a colon and only in its last line, and a continuing line outside
      delimiters stands four spaces in. */
  ghost predicate WellLines(open: seq<Bracket>, lexemes: seq<Lexeme>, more: seq<Part>, base: nat, header: bool)
    decreases more
  {
    && lexemes != [] && Opened(open, lexemes).Some?
    && var after := Opened(open, lexemes).value;
       if more == [] then after == [] && EndsInColon(lexemes) == header
       else
         && !EndsInColon(lexemes) && (after == [] ==> more[0].indent == base + 4)
         && WellLines(after, more[0].lexemes, more[1..], base, header)
  }

  ghost predicate Well(statements: seq<Statement>, base: nat)
    decreases statements, 1
  {
    forall s :: s in statements ==> WellOne(s, base)
  }

  ghost predicate WellOne(s: Statement, base: nat)
    decreases s, 0
  {
    match s
    case Documentation => true
    case Simple(first, more) => WellLines([], first, more, base, false)
    case Block(first, more, body) => WellLines([], first, more, base, true) && body != [] && Well(body, base + 4)
  }

  // ------------------------------------------------------------------ one logical line

  lemma {:induction false} SpacesWidth(n: nat)
    ensures Width(Spaces(n)) == n && Tab !in Spaces(n)
  {
    if n > 0 {
      SpacesWidth(n - 1);
      assert Spaces(n)[..n - 1] == Spaces(n - 1);
    }
  }

  lemma {:induction false} LexOpens(s: State, lexemes: seq<Lexeme>)
    requires Opened(s.delimiters, lexemes).Some?
    ensures LexLine(s, lexemes).delimiters == Opened(s.delimiters, lexemes).value
    ensures LexLine(s, lexemes).diagnostics == s.diagnostics
  {
    if lexemes != [] {
      LexOpens(s, lexemes[..|lexemes| - 1]);
    }
  }

  lemma {:induction false} PlainsLast(lexemes: seq<Lexeme>)
    ensures |Plains(lexemes)| == |lexemes|
    ensures lexemes != [] ==> Plains(lexemes)[|lexemes| - 1] == Plain(lexemes[|lexemes| - 1])
  {
    if lexemes != [] {
      PlainsLast(lexemes[..|lexemes| - 1]);
    }
  }

  /** The state after the lexemes of a line, before what ends the line. */
  ghost function Lexed(s: State, base: nat, lexemes: seq<Lexeme>): State {
    s.(tokens := s.tokens + Plains(lexemes), pending := None, active := Some(base),
       delimiters := if Opened(s.delimiters, lexemes).Some? then Opened(s.delimiters, lexemes).value else [])
  }

  /** A line of code in the statement at `base`, given that it begins or continues it. */
  lemma CodeLine(s: State, u: State, indent: nat, base: nat, lexemes: seq<Lexeme>)
    requires s.indents != [] && s.indents[0] == 0 && lexemes != [] && Opened(s.delimiters, lexemes).Some?
    requires u == BeginLine(s, indent, false) && u.delimiters == s.delimiters && u.grouped == []
    requires u.pending.None? && u.active == Some(base)
    ensures Step(s, Line(Spaces(indent), Code(lexemes))) == EndLine(Lexed(u, base, lexemes), indent, false)
  {
    hide Width, Spaces, BeginLine, EndLine;
    SpacesWidth(indent);
    LexKeeps(u, lexemes);
    LexOpens(u, lexemes);
    PlainsLast(lexemes);
    var v := LexLine(u, lexemes);
    assert v == Lexed(u, base, lexemes);
    assert Ungroup(v) == v;
  }

  /** The state where a line that stands at `base` begins. */
  ghost function At(tokens: seq<Tok>, diagnostics: nat, base: nat): State {
    State(tokens, diagnostics, Levels(base / 4), [], None, Some(base), None, [])
  }

  /** The state after the last line of a statement. */
  ghost function Ended(u: State, base: nat, tokens: seq<Tok>, header: bool): State {
    if header then
      u.(tokens := u.tokens + tokens + [Newline], pending := None, active := None, expected := Some(base),
         delimiters := [])
    else u.(tokens := u.tokens + tokens, pending := Some(base), active := Some(base), delimiters := [])
  }

  ghost predicate Within(u: State, base: nat) {
    && u.indents != [] && u.indents[0] == 0
    && u.grouped == [] && u.pending.None? && u.expected.None? && u.active == Some(base)
  }

  lemma LastToken(ts: seq<Tok>, lexemes: seq<Lexeme>)
    requires lexemes != []
    ensures (ts + Plains(lexemes))[|ts + Plains(lexemes)| - 1] == Plain(Colon) <==> EndsInColon(lexemes)
  {
    PlainsLast(lexemes);
  }

  /** The last line of a statement. */
  lemma LastLine(u: State, indent: nat, base: nat, lexemes: seq<Lexeme>, header: bool)
    requires Within(u, base) && lexemes != [] && Opened(u.delimiters, lexemes) == Some([])
    requires EndsInColon(lexemes) == header
    ensures EndLine(Lexed(u, base, lexemes), indent, false) == Ended(u, base, Plains(lexemes), header)
  {
    hide Opened, Plains;
    LastToken(u.tokens, lexemes);
    PlainsLast(lexemes);
  }

  /** A line that is continued: what ends it is undone by the line that follows. */
  lemma MiddleLine(u: State, indent: nat, base: nat, lexemes: seq<Lexeme>, next: nat)
    requires Within(u, base) && lexemes != [] && Opened(u.delimiters, lexemes).Some? && !EndsInColon(lexemes)
    requires Opened(u.delimiters, lexemes).value == [] ==> next == base + 4
    ensures BeginLine(EndLine(Lexed(u, base, lexemes), indent, false), next, false) == Lexed(u, base, lexemes)
  {
    hide Opened, Plains;
    LastToken(u.tokens, lexemes);
    PlainsLast(lexemes);
  }

  lemma {:induction false} LogicalRuns(s: State, u: State, indent: nat, base: nat, lexemes: seq<Lexeme>,
                                       more: seq<Part>, header: bool)
    requires s.indents != [] && s.indents[0] == 0 && u == BeginLine(s, indent, false)
    requires Within(u, base) && u.delimiters == s.delimiters
    requires WellLines(u.delimiters, lexemes, more, base, header)
    ensures Run(s, [Line(Spaces(indent), Code(lexemes))] + PrintParts(more))
         == Ended(u, base, Joined(lexemes, more), header)
    decreases more
  {
    hide Run, Step, Spaces, Plains, Opened, BeginLine, EndLine, EndsInColon;
    var line := Line(Spaces(indent), Code(lexemes));
    CodeLine(s, u, indent, base, lexemes);
    RunFirst(s, line, PrintParts(more));
    var v := Lexed(u, base, lexemes);
    var s1 := EndLine(v, indent, false);
    if more == [] {
      LastLine(u, indent, base, lexemes, header);
      RunNothing(s1);
    } else {
      MiddleLine(u, indent, base, lexemes, more[0].indent);
      EndLineKeeps(v, indent);
      LogicalRuns(s1, v, more[0].indent, base, more[0].lexemes, more[1..], header);
      assert u.tokens + Plains(lexemes) + Joined(more[0].lexemes, more[1..]) == u.tokens + Joined(lexemes, more);
    }
  }

  lemma EndLineKeeps(v: State, indent: nat)
    requires v.indents != []
    ensures EndLine(v, indent, false).delimiters == v.delimiters && EndLine(v, indent, false).indents == v.indents
  {
  }

  lemma RunNothing(s: State)
    requires s.indents != [] && s.indents[0] == 0
    ensures Run(s, []) == s
  {
  }

  lemma {:induction false} RunAppend(s: State, a: seq<Line>, b: seq<Line>)
    requires s.indents != [] && s.indents[0] == 0
    ensures Run(s, a + b) == Run(Run(s, a), b)
    decreases b
  {
    hide Step;
    if b == [] {
      assert a + b == a;
    } else {
      RunAppend(s, a, b[..|b| - 1]);
      assert (a + b)[..|a + b| - 1] == a + b[..|b| - 1];
    }
  }

  lemma RunFirst(s: State, line: Line, rest: seq<Line>)
    requires s.indents != [] && s.indents[0] == 0
    ensures Step(s, line).indents != [] && Step(s, line).indents[0] == 0
    ensures Run(s, [line] + rest) == Run(Step(s, line), rest)
  {
    hide Step;
    StepBottom(s, line);
    RunAppend(s, [line], rest);
    var none: seq<Line> := [];
    assert [line][..|[line]| - 1] == none;
    RunNothing(s);
  }

  // ------------------------------------------------------------------ between statements

  /** A statement at `base` may begin: it opens the block just announced, or `base` is an open
      level. */
  ghost predicate Rest(s: State, base: nat) {
    && Valid(s) && ActiveHere(s) && s.delimiters == [] && s.grouped == []
    && (s.pending.None? ==> s.active.None?)
    && if s.expected.Some? then s.pending.None? && base == Current(s) + 4 else base in s.indents
  }

  /** The tokens once what is held back has been emitted and blocks deeper than `base` are closed. */
  ghost function Flush(s: State, base: nat): seq<Tok>
    requires Rest(s, base)
  {
    if s.expected.Some? then s.tokens + [Indent]
    else Pop(if s.pending.Some? then Emit(s, Newline) else s, base).tokens
  }

  lemma LevelsAre(s: State, base: nat)
    requires s.indents != [] && s.indents == Levels(|s.indents| - 1) && Current(s) == base
    ensures s.indents == Levels(base / 4)
  {
  }

  lemma RestLevel(s: State, base: nat)
    requires Rest(s, base) && s.expected.None?
    ensures base <= Current(s)
  {
    var i :| 0 <= i < |s.indents| && s.indents[i] == base;
  }

  lemma StartsAt(s: State, base: nat, doc: bool)
    requires Rest(s, base)
    ensures s.indents[0] == 0 && BeginLine(s, base, doc) == At(Flush(s, base), s.diagnostics, base)
  {
    hide Nesting;
    if s.expected.Some? {
      assert s.indents + [base] == Levels(|s.indents|);
      LevelsAre(s.(indents := s.indents + [base]), base);
    } else {
      RestLevel(s, base);
      NestingEmit(s.tokens, Newline);
      var t := if s.pending.Some? then Emit(s, Newline).(pending := None, active := None) else s;
      PopValid(t, base);
      PopTokens(t, if s.pending.Some? then Emit(s, Newline) else s, base);
      assert Apply(t, base) == Pop(t, base);
      LevelsAre(Pop(t, base), base);
    }
  }

  lemma {:induction false} PopTokens(s: State, t: State, base: nat)
    requires s.indents != [] && s.indents[0] == 0 && s.indents == t.indents && s.tokens == t.tokens
    ensures Pop(s, base).tokens == Pop(t, base).tokens
    decreases |s.indents|
  {
    if Current(s) > base {
      PopTokens(Emit(s.(indents := s.indents[..|s.indents| - 1]), Dedent),
                Emit(t.(indents := t.indents[..|t.indents| - 1]), Dedent), base);
    }
  }

  /** Closing down to `base` closes the block at `base + 4` on the way. */
  lemma {:induction false} PopBoth(s: State, base: nat)
    requires s.indents != [] && s.indents == Levels(|s.indents| - 1) && base + 4 in s.indents
    ensures Pop(s, base).tokens == Pop(s, base + 4).tokens + [Dedent]
    decreases |s.indents|
  {
    var i :| 0 <= i < |s.indents| && s.indents[i] == base + 4;
    var t := Emit(s.(indents := s.indents[..|s.indents| - 1]), Dedent);
    if i < |s.indents| - 1 {
      assert t.indents == Levels(|t.indents| - 1);
      assert t.indents[i] == base + 4;
      PopBoth(t, base);
    }
  }

  // ------------------------------------------------------------------ forests

  /** What a forest leaves behind: a state at rest at its level, with its brackets emitted. */
  ghost predicate Done(s: State, r: State, base: nat, tokens: seq<Tok>)
    requires Rest(s, base)
  {
    Rest(r, base) && r.expected.None? && r.diagnostics == s.diagnostics && Flush(r, base) == Flush(s, base) + tokens
  }

  lemma AtValid(s: State, base: nat)
    requires Rest(s, base)
    ensures var u := At(Flush(s, base), s.diagnostics, base);
            Valid(u) && Current(u) == base && Within(u, base) && s.indents[0] == 0
  {
    hide Nesting;
    StartsAt(s, base, false);
    PrepareValid(s, base, false);
  }

  lemma FlushHere(r: State, base: nat)
    requires Rest(r, base) && r.expected.None? && Current(r) == base
    ensures Flush(r, base) == if r.pending.Some? then r.tokens + [Newline] else r.tokens
  {
  }

  lemma SimpleDone(s: State, base: nat, first: seq<Lexeme>, more: seq<Part>)
    requires Rest(s, base) && WellLines([], first, more, base, false)
    ensures s.indents[0] == 0 && Done(s, Run(s, PrintLogical(first, more, base)), base, Joined(first, more) + [Newline])
  {
    hide Run, Spaces, BeginLine, Nesting, WellLines, Flush, Joined;
    StartsAt(s, base, false);
    AtValid(s, base);
    var u := At(Flush(s, base), s.diagnostics, base);
    LogicalRuns(s, u, base, base, first, more, false);
    var r := Ended(u, base, Joined(first, more), false);
    JoinedNests(u.tokens, first, more);
    assert r.indents[base / 4] == base;
    FlushHere(r, base);
    assert u.tokens + Joined(first, more) + [Newline] == u.tokens + (Joined(first, more) + [Newline]);
  }

  lemma {:induction false} JoinedNests(ts: seq<Tok>, first: seq<Lexeme>, more: seq<Part>)
    ensures Nesting(ts + Joined(first, more)) == Nesting(ts) && (NoEof(ts) ==> NoEof(ts + Joined(first, more)))
    decreases more
  {
    hide Nesting, NoEof, Plains;
    PlainsNest(ts, first);
    if more != [] {
      JoinedNests(ts + Plains(first), more[0].lexemes, more[1..]);
      assert ts + Joined(first, more) == ts + Plains(first) + Joined(more[0].lexemes, more[1..]);
    }
  }

  lemma DocumentationStep(s: State, base: nat)
    requires Rest(s, base)
    ensures s.indents[0] == 0
    ensures var u := At(Flush(s, base), s.diagnostics, base);
            Step(s, Line(Spaces(base), DocComment)) == u.(tokens := u.tokens + [Doc] + [Newline], active := None)
  {
    hide Run, Spaces, BeginLine, Nesting, Flush, Width, Valid;
    StartsAt(s, base, true);
    SpacesWidth(base);
    var u := At(Flush(s, base), s.diagnostics, base);
    assert Ungroup(Emit(u, Doc)) == Emit(u, Doc);
  }

  lemma DocumentationDone(s: State, base: nat)
    requires Rest(s, base)
    ensures s.indents[0] == 0 && Done(s, Run(s, [Line(Spaces(base), DocComment)]), base, [Doc, Newline])
  {
    hide Run, Step, Spaces, Nesting, Flush;
    DocumentationStep(s, base);
    AtValid(s, base);
    var u := At(Flush(s, base), s.diagnostics, base);
    var line := Line(Spaces(base), DocComment);
    var none: seq<Line> := [];
    RunFirst(s, line, none);
    RunNothing(Step(s, line));
    assert [line] + none == [line];
    var r := u.(tokens := u.tokens + [Doc] + [Newline], active := None);
    NestingEmit(u.tokens, Doc);
    NestingEmit(u.tokens + [Doc], Newline);
    assert r.indents[base / 4] == base;
    FlushHere(r, base);
    assert u.tokens + [Doc] + [Newline] == u.tokens + [Doc, Newline];
  }

  /** A header leaves its body to begin one level deeper. */
  lemma HeaderDone(s: State, base: nat, first: seq<Lexeme>, more: seq<Part>)
    requires Rest(s, base) && WellLines([], first, more, base, true)
    ensures s.indents[0] == 0
    ensures var r := Run(s, PrintLogical(first, more, base));
            && Rest(r, base + 4) && r.expected.Some? && r.diagnostics == s.diagnostics && Current(r) == base
            && Flush(r, base + 4) == Flush(s, base) + (Joined(first, more) + [Newline, Indent])
  {
    hide Run, Spaces, BeginLine, Nesting, WellLines, Joined, Pop;
    StartsAt(s, base, false);
    AtValid(s, base);
    var u := At(Flush(s, base), s.diagnostics, base);
    LogicalRuns(s, u, base, base, first, more, true);
    var r := Ended(u, base, Joined(first, more), true);
    JoinedNests(u.tokens, first, more);
    NestingEmit(u.tokens + Joined(first, more), Newline);
    assert r.tokens + [Indent] == u.tokens + (Joined(first, more) + [Newline, Indent]);
  }

  /** After a body the enclosing level is at rest, one Dedent later. */
  lemma BodyDone(r: State, base: nat)
    requires Rest(r, base + 4) && r.expected.None? && base % 4 == 0
    ensures Rest(r, base) && Flush(r, base) == Flush(r, base + 4) + [Dedent]
  {
    hide Nesting;
    RestLevel(r, base + 4);
    assert r.indents[base / 4] == base;
    PopBoth(if r.pending.Some? then Emit(r, Newline) else r, base);
  }

  lemma {:induction false} StatementDone(s: State, statement: Statement, base: nat)
    requires Rest(s, base) && WellOne(statement, base)
    ensures s.indents[0] == 0 && Done(s, Run(s, PrintOne(statement, base)), base, BracketedOne(statement))
    decreases statement, 3
  {
    match statement
    case Documentation => DocumentationDone(s, base);
    case Simple(first, more) => SimpleDone(s, base, first, more);
    case Block(first, more, body) => BlockDone(s, statement, base);
  }

  lemma {:induction false} BlockDone(s: State, statement: Statement, base: nat)
    requires Rest(s, base) && statement.Block? && WellOne(statement, base)
    ensures s.indents[0] == 0 && Done(s, Run(s, PrintOne(statement, base)), base, BracketedOne(statement))
    decreases statement, 2
  {
    hide Run, Nesting, Rest, Flush, PrintLogical, WellLines, Joined;
    var Block(first, more, body) := statement;
    BottomAtRest(s, base);
    HeaderDone(s, base, first, more);
    var r1 := Run(s, PrintLogical(first, more, base));
    RunAppend(s, PrintLogical(first, more, base), Print(body, base + 4));
    ForestDone(r1, body, base + 4);
    var r := Run(r1, Print(body, base + 4));
    LevelFour(s, base);
    BodyDone(r, base);
    assert Flush(s, base) + (Joined(first, more) + [Newline, Indent]) + Bracketed(body) + [Dedent]
        == Flush(s, base) + BracketedOne(statement);
  }

  lemma LevelFour(s: State, base: nat)
    requires Rest(s, base)
    ensures base % 4 == 0
  {
    if s.expected.None? {
      var i :| 0 <= i < |s.indents| && s.indents[i] == base;
    }
  }

  lemma {:induction false} ForestDone(s: State, statements: seq<Statement>, base: nat)
    requires Rest(s, base) && Well(statements, base) && (statements != [] || s.expected.None?)
    ensures s.indents[0] == 0 && Done(s, Run(s, Print(statements, base)), base, Bracketed(statements))
    decreases statements, 1
  {
    hide Run, Nesting, Rest, Flush, PrintOne, BracketedOne, WellOne;
    BottomAtRest(s, base);
    if statements == [] {
      RunNothing(s);
      assert Flush(s, base) + [] == Flush(s, base);
    } else {
      assert statements[0] in statements;
      StatementDone(s, statements[0], base);
      var r := Run(s, PrintOne(statements[0], base));
      RunAppend(s, PrintOne(statements[0], base), Print(statements[1..], base));
      ForestDone(r, statements[1..], base);
      assert Flush(s, base) + BracketedOne(statements[0]) + Bracketed(statements[1..])
          == Flush(s, base) + Bracketed(statements);
    }
  }

  lemma BottomAtRest(s: State, base: nat)
    requires Rest(s, base)
    ensures s.indents != [] && s.indents[0] == 0
  {
  }

  // ------------------------------------------------------------------ whole files

  /** The file without its blank and comment lines. */
  function WithoutBlank(lines: seq<Line>): seq<Line> {
    if lines == [] then []
    else
      var before, last := WithoutBlank(lines[..|lines| - 1]), lines[|lines| - 1];
      if last.content.Nothing? then before else before + [last]
  }

  /** How many blank and comment lines have a tab in their indentation. */
  function TabbedBlanks(lines: seq<Line>): nat {
    if lines == [] then 0
    else
      var last := lines[|lines| - 1];
      TabbedBlanks(lines[..|lines| - 1]) + if last.content.Nothing? && Tab in last.lead then 1 else 0
  }

  /** Blank and comment lines change nothing but the number of diagnostics, which is one more for each
      that has a tab in its indentation. */
  lemma {:induction false} BlankIgnored(s: State, lines: seq<Line>)
    requires s.indents != [] && s.indents[0] == 0
    ensures Run(s, lines) == Reported(Run(s, WithoutBlank(lines)), TabbedBlanks(lines))
  {
    hide Step;
    if lines != [] {
      var rest, last := lines[..|lines| - 1], lines[|lines| - 1];
      BlankIgnored(s, rest);
      var r := Run(s, WithoutBlank(rest));
      StepReported(r, TabbedBlanks(rest), last);
      if last.content.Nothing? {
        BlankStep(r, last);
      } else {
        assert (WithoutBlank(rest) + [last])[..|WithoutBlank(rest)|] == WithoutBlank(rest);
      }
    }
  }

  lemma BlankStep(s: State, line: Line)
    requires s.indents != [] && s.indents[0] == 0 && line.content.Nothing?
    ensures Step(s, line) == if Tab in line.lead then Fault(s) else s
  {
    hide BeginLine, LexLine, Ungroup, EndLine;
  }

  // ------------------------------------------------------------------ diagnostics never steer the layout

  /** The same state after `n` more diagnostics. */
  ghost function Reported(s: State, n: nat): State {
    s.(diagnostics := s.diagnostics + n)
  }

  lemma {:induction false} PopReported(s: State, n: nat, indent: nat)
    requires s.indents != [] && s.indents[0] == 0
    ensures Pop(Reported(s, n), indent) == Reported(Pop(s, indent), n)
    decreases |s.indents|
  {
    if Current(s) > indent {
      PopReported(Emit(s.(indents := s.indents[..|s.indents| - 1]), Dedent), n, indent);
    }
  }

  lemma ApplyReported(s: State, n: nat, indent: nat)
    requires s.indents != [] && s.indents[0] == 0
    ensures Apply(Reported(s, n), indent) == Reported(Apply(s, indent), n)
  {
    hide Pop;
    PopReported(s, n, indent);
    PopReported(Fault(s), n, indent);
  }

  lemma PrepareReported(s: State, n: nat, indent: nat, doc: bool)
    requires s.indents != [] && s.indents[0] == 0
    ensures Prepare(Reported(s, n), indent, doc) == (Reported(Prepare(s, indent, doc).0, n), Prepare(s, indent, doc).1)
  {
    hide Apply;
    var t := if s.pending.Some? then Emit(s, Newline).(pending := None, active := None) else s;
    ApplyReported(t, n, indent);
    ApplyReported(Fault(t.(expected := None)), n, indent);
  }

  lemma {:induction false} LexReported(s: State, n: nat, lexemes: seq<Lexeme>)
    ensures LexLine(Reported(s, n), lexemes) == Reported(LexLine(s, lexemes), n)
  {
    if lexemes != [] {
      LexReported(s, n, lexemes[..|lexemes| - 1]);
    }
  }

  lemma {:induction false} UngroupReported(s: State, n: nat)
    requires s.indents != []
    ensures Ungroup(Reported(s, n)) == Reported(Ungroup(s), n)
    decreases |s.grouped|
  {
    if s.grouped != [] {
      UngroupReported(s.(grouped := s.grouped[..|s.grouped| - 1]), n);
    }
  }

  lemma EndReported(s: State, n: nat, indent: nat, doc: bool)
    requires s.indents != []
    ensures EndLine(Reported(s, n), indent, doc) == Reported(EndLine(s, indent, doc), n)
  {
  }

  lemma BeginReported(s: State, n: nat, indent: nat, doc: bool)
    requires s.indents != [] && s.indents[0] == 0
    ensures BeginLine(Reported(s, n), indent, doc) == Reported(BeginLine(s, indent, doc), n)
  {
    hide Prepare;
    PrepareReported(s, n, indent, doc);
  }

  lemma StepReported(s: State, n: nat, line: Line)
    requires s.indents != [] && s.indents[0] == 0
    ensures Step(Reported(s, n), line) == Reported(Step(s, line), n)
  {
    hide Width, BeginLine, LexLine, Ungroup, EndLine;
    var indent := Width(line.lead);
    var t := if Tab in line.lead then Fault(s) else s;
    if !line.content.Nothing? {
      var doc := line.content.DocComment?;
      BeginReported(t, n, indent, doc);
      var u := BeginLine(t, indent, doc);
      var lexemes := if doc then [] else line.content.lexemes;
      LexKeeps(u, lexemes);
      LexReported(u, n, lexemes);
      var v := if doc then Emit(u, Doc) else LexLine(u, lexemes);
      UngroupKeeps(v);
      UngroupReported(v, n);
      EndReported(Ungroup(v), n, indent, doc);
    }
  }

  lemma FinishReported(s: State, n: nat)
    requires s.indents != [] && s.indents[0] == 0
    ensures Finish(Reported(s, n)) == Reported(Finish(s), n)
  {
    hide Pop;
    var t := if s.pending.Some? || s.active.Some? then Emit(s, Newline) else s;
    var u := if t.expected.Some? then Fault(t) else t;
    PopReported(u.(pending := None, active := None, expected := None, delimiters := [],
                   diagnostics := u.diagnostics + |u.delimiters|), n, 0);
  }

  lemma InitialRest()
    ensures Rest(Initial(), 0) && Flush(Initial(), 0) == []
  {
    assert Levels(0) == [0];
    assert Initial().indents[0] == 0;
  }

  /** The layout round trip: a file that is a printed forest but for blank and comment lines is
      tokenised to the forest's brackets, and draws one diagnostic for each of those lines that is
      indented with a tab. */
  lemma LayoutInverts(lines: seq<Line>, forest: seq<Statement>)
    requires Well(forest, 0) && WithoutBlank(lines) == Print(forest, 0)
    ensures Lex(lines).tokens == Bracketed(forest) + [Eof] && Lex(lines).diagnostics == TabbedBlanks(lines)
  {
    hide Run, Nesting, Print, Bracketed, Well, WithoutBlank, TabbedBlanks, Flush, Finish;
    InitialRest();
    BlankIgnored(Initial(), lines);
    ForestDone(Initial(), forest, 0);
    var r := Run(Initial(), WithoutBlank(lines));
    FinishAtRest(r);
    FinishReported(r, TabbedBlanks(lines));
    assert [] + Bracketed(forest) == Bracketed(forest);
  }

  lemma FinishAtRest(r: State)
    requires Rest(r, 0) && r.expected.None?
    ensures r.indents[0] == 0 && Finish(r).tokens == Flush(r, 0) + [Eof] && Finish(r).diagnostics == r.diagnostics
  {
    hide Nesting;
    NestingEmit(r.tokens, Newline);
    var t := if r.pending.Some? then Emit(r, Newline) else r;
    var v := t.(pending := None, active := None, expected := None, delimiters := [], diagnostics := t.diagnostics + 0);
    PopTokens(v, t, 0);
    PopValid(v, 0);
  }
}
