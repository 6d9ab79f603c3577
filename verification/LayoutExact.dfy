/** What the layout engine lets pass is a printed forest, so it reports exactly what is none.
 */
module LayoutExact {
  import opened Layout
  import opened LayoutRoundTrip
  import opened LayoutRules
  import opened Wrappers

  // ------------------------------------------------------------------ nothing reported

  lemma {:induction false} PopMonotone(s: State, indent: nat)
    requires s.indents != [] && s.indents[0] == 0
    ensures Pop(s, indent).diagnostics == s.diagnostics
    decreases |s.indents|
  {
    if Current(s) > indent {
      PopMonotone(Emit(s.(indents := s.indents[..|s.indents| - 1]), Dedent), indent);
    }
  }

  lemma ApplyMonotone(s: State, indent: nat)
    requires s.indents != [] && s.indents[0] == 0
    ensures Apply(s, indent).diagnostics >= s.diagnostics
    ensures Apply(s, indent).diagnostics == s.diagnostics ==> indent <= Current(s) && indent in s.indents
  {
    hide Pop;
    PopMonotone(if indent in s.indents then s else Fault(s), indent);
    assert Current(s) in s.indents;
  }

  lemma BeginMonotone(s: State, indent: nat, doc: bool)
    requires s.indents != [] && s.indents[0] == 0
    ensures BeginLine(s, indent, doc).diagnostics >= s.diagnostics
  {
    hide Apply;
    var t := if s.pending.Some? then Emit(s, Newline).(pending := None, active := None) else s;
    ApplyMonotone(t, indent);
    ApplyMonotone(Fault(t.(expected := None)), indent);
  }

  lemma {:induction false} LexMonotone(s: State, lexemes: seq<Lexeme>)
    ensures LexLine(s, lexemes).diagnostics >= s.diagnostics
    ensures LexLine(s, lexemes).diagnostics == s.diagnostics ==> Opened(s.delimiters, lexemes).Some?
  {
    if lexemes != [] {
      var init := lexemes[..|lexemes| - 1];
      LexMonotone(s, init);
      if Opened(s.delimiters, init).Some? {
        LexOpens(s, init);
      }
    }
  }

  lemma EndMonotone(s: State, indent: nat, doc: bool)
    requires s.indents != []
    ensures EndLine(s, indent, doc).diagnostics == s.diagnostics
  {
  }

  /** The state a line of code or documentation is read in. */
  lemma StepMonotone(s: State, line: Line)
    requires s.indents != [] && s.indents[0] == 0
    ensures Step(s, line).diagnostics >= s.diagnostics
    ensures Step(s, line).diagnostics == s.diagnostics ==> Tab !in line.lead
    ensures Step(s, line).diagnostics == s.diagnostics && !line.content.Nothing? ==>
              var u := BeginLine(s, Width(line.lead), line.content.DocComment?);
              && u.diagnostics == s.diagnostics
              && (line.content.Code? ==> Opened(u.delimiters, line.content.lexemes).Some?)
  {
    hide Width, BeginLine, LexLine, Ungroup, EndLine, Opened;
    var indent := Width(line.lead);
    var t := if Tab in line.lead then Fault(s) else s;
    if !line.content.Nothing? {
      var doc := line.content.DocComment?;
      var u := BeginLine(t, indent, doc);
      BeginMonotone(t, indent, doc);
      var v := if doc then Emit(u, Doc) else LexLine(u, line.content.lexemes);
      LexKeeps(u, if doc then [] else line.content.lexemes);
      LexMonotone(u, if doc then [] else line.content.lexemes);
      UngroupKeeps(v);
      EndMonotone(Ungroup(v), indent, doc);
    }
  }

  lemma FinishMonotone(s: State)
    requires s.indents != [] && s.indents[0] == 0
    ensures Finish(s).diagnostics == s.diagnostics + |s.delimiters| + if s.expected.Some? then 1 else 0
  {
    hide Pop;
    var t := if s.pending.Some? || s.active.Some? then Emit(s, Newline) else s;
    var u := if t.expected.Some? then Fault(t) else t;
    PopMonotone(u.(pending := None, active := None, expected := None, delimiters := [],
                   diagnostics := u.diagnostics + |u.delimiters|), 0);
  }

  /** Nothing is reported from here to the end of the file. */
  ghost predicate Clean(s: State, lines: seq<Line>)
    requires s.indents != [] && s.indents[0] == 0
  {
    Finish(Run(s, lines)).diagnostics == s.diagnostics
  }

  lemma {:induction false} RunMonotone(s: State, lines: seq<Line>)
    requires s.indents != [] && s.indents[0] == 0
    ensures Run(s, lines).diagnostics >= s.diagnostics
  {
    hide Step;
    if lines != [] {
      RunMonotone(s, lines[..|lines| - 1]);
      StepMonotone(Run(s, lines[..|lines| - 1]), lines[|lines| - 1]);
    }
  }

  lemma CleanApart(s: State, a: seq<Line>, b: seq<Line>)
    requires s.indents != [] && s.indents[0] == 0 && Clean(s, a + b)
    ensures Run(s, a).diagnostics == s.diagnostics && Clean(Run(s, a), b)
  {
    hide Run, Finish;
    RunAppend(s, a, b);
    RunMonotone(s, a);
    RunMonotone(Run(s, a), b);
    FinishMonotone(Run(Run(s, a), b));
  }

  lemma CleanFirst(s: State, lines: seq<Line>)
    requires s.indents != [] && s.indents[0] == 0 && Clean(s, lines) && lines != []
    ensures Step(s, lines[0]).indents != [] && Step(s, lines[0]).indents[0] == 0
    ensures Step(s, lines[0]).diagnostics == s.diagnostics && Clean(Step(s, lines[0]), lines[1..])
  {
    hide Step;
    var none: seq<Line> := [];
    assert lines == [lines[0]] + lines[1..] && [lines[0]] + none == [lines[0]];
    StepBottom(s, lines[0]);
    RunFirst(s, lines[0], none);
    RunNothing(Step(s, lines[0]));
    CleanApart(s, [lines[0]], lines[1..]);
  }

  lemma CleanEnd(s: State)
    requires s.indents != [] && s.indents[0] == 0 && Clean(s, [])
    ensures s.delimiters == [] && s.expected.None?
  {
    hide Finish;
    RunNothing(s);
    FinishMonotone(s);
  }

  // ------------------------------------------------------------------ files without blocks in delimiters

  function Balance(lexemes: seq<Lexeme>): int {
    if lexemes == [] then 0
    else
      Balance(lexemes[..|lexemes| - 1]) + match lexemes[|lexemes| - 1]
                                          case Open(_) => 1
                                          case Close(_) => -1
                                          case _ => 0
  }

  /** Inside delimiters, `depth` of which are open, stand neither block headers nor documentation; a
      line of code has a token. */
  predicate Flat(depth: int, lines: seq<Line>)
    decreases lines
  {
    lines == [] ||
    match lines[0].content
    case Nothing => Flat(depth, lines[1..])
    case DocComment => depth <= 0 && Flat(depth, lines[1..])
    case Code(lexemes) =>
      && lexemes != [] && (EndsInColon(lexemes) ==> depth + Balance(lexemes) <= 0)
      && Flat(depth + Balance(lexemes), lines[1..])
  }

  predicate NoBlank(lines: seq<Line>) {
    forall line :: line in lines ==> !line.content.Nothing?
  }

  lemma {:induction false} OpenedBalance(open: seq<Bracket>, lexemes: seq<Lexeme>)
    requires Opened(open, lexemes).Some?
    ensures |Opened(open, lexemes).value| == |open| + Balance(lexemes)
  {
    if lexemes != [] {
      OpenedBalance(open, lexemes[..|lexemes| - 1]);
    }
  }

  lemma {:induction false} WithoutTabs(lead: seq<Blank>)
    requires Tab !in lead
    ensures lead == Spaces(Width(lead))
  {
    if lead != [] {
      var init := lead[..|lead| - 1];
      assert lead == init + [lead[|lead| - 1]];
      WithoutTabs(init);
      assert lead[|lead| - 1] in lead;
    }
  }

  // ------------------------------------------------------------------ reading a statement back

  /** A line of code that would continue a statement at `base`. */
  predicate MayContinue(line: Line, base: nat) {
    line.content.Code? && Width(line.lead) == base + 4
  }

  /** The lines of the statement that begins or goes on at the first line. */
  lemma {:induction false} ReadLogical(s: State, u: State, base: nat, lines: seq<Line>)
    returns (more: seq<Part>, rest: seq<Line>, header: bool)
    requires lines != [] && lines[0].content.Code? && NoBlank(lines)
    requires s.indents != [] && s.indents[0] == 0 && u == BeginLine(s, Width(lines[0].lead), false)
    requires Within(u, base) && u.delimiters == s.delimiters && u.diagnostics == s.diagnostics
    requires Clean(s, lines) && Flat(|s.delimiters|, lines)
    ensures WellLines(u.delimiters, lines[0].content.lexemes, more, base, header)
    ensures lines == [Line(Spaces(Width(lines[0].lead)), lines[0].content)] + PrintParts(more) + rest
    ensures Flat(0, rest) && NoBlank(rest)
    ensures !header && rest != [] ==> !MayContinue(rest[0], base)
    decreases |lines|
  {
    hide Run, Step, Spaces, Plains, Opened, BeginLine, EndLine, EndsInColon, Finish, Width, Clean;
    var (line, lexemes, indent) := (lines[0], lines[0].content.lexemes, Width(lines[0].lead));
    CleanFirst(s, lines);
    StepMonotone(s, line);
    WithoutTabs(line.lead);
    OpenedBalance(u.delimiters, lexemes);
    CodeLine(s, u, indent, base, lexemes);
    var (v, after) := (Lexed(u, base, lexemes), Opened(u.delimiters, lexemes).value);
    var s1 := EndLine(v, indent, false);
    EndLineKeeps(v, indent);
    EndMonotone(v, indent, false);
    rest := lines[1..];
    assert lines == [line] + rest;
    if after == [] && (EndsInColon(lexemes) || rest == [] || !MayContinue(rest[0], base)) {
      more, header := [], EndsInColon(lexemes);
    } else {
      if rest == [] {
        CleanEnd(s1);
      }
      assert rest[0] in lines && rest[0].content.Code?;
      MiddleLine(u, indent, base, lexemes, Width(rest[0].lead));
      var next := rest;
      more, rest, header := ReadLogical(s1, v, base, next);
      assert next[0] == Line(Spaces(Width(next[0].lead)), next[0].content);
      more := [Part(Width(next[0].lead), next[0].content.lexemes)] + more;
      PartsRead(line, next, more, rest);
    }
  }

  lemma PartsRead(line: Line, next: seq<Line>, more: seq<Part>, rest: seq<Line>)
    requires more != [] && next == [Line(Spaces(more[0].indent), Code(more[0].lexemes))] + PrintParts(more[1..]) + rest
    ensures [line] + next == [line] + PrintParts(more) + rest
  {
    hide Spaces;
    assert PrintParts(more) == [Line(Spaces(more[0].indent), Code(more[0].lexemes))] + PrintParts(more[1..]);
  }

  // ------------------------------------------------------------------ reading a forest back

  /** A line that reports nothing begins at an open level, or one deeper as the first of a body. */
  lemma LevelHere(s: State, base: nat, line: Line)
    requires Rest(s, base) && s.indents[0] == 0 && !line.content.Nothing?
    requires Step(s, line).diagnostics == s.diagnostics
    ensures s.expected.Some? ==> Width(line.lead) == base
    ensures s.expected.None? && !(s.pending.Some? && MayContinue(line, s.pending.value)) ==>
              Width(line.lead) <= Current(s) && Width(line.lead) in s.indents
  {
    hide Step, Width, Nested, Apply, Pop;
    BottomAtRest(s, base);
    StepMonotone(s, line);
    var (w, doc) := (Width(line.lead), line.content.DocComment?);
    var t := if s.pending.Some? then Emit(s, Newline).(pending := None, active := None) else s;
    ApplyMonotone(t, w);
    ApplyMonotone(Fault(t.(expected := None)), w);
  }

  /** After the statement comes nothing, or a line that is no deeper. */
  ghost predicate NotDeeper(lines: seq<Line>, base: nat) {
    lines == [] || Width(lines[0].lead) <= base
  }

  /** What remains of the file can be read on. */
  ghost predicate Readable(s: State, lines: seq<Line>) {
    s.indents != [] && s.indents[0] == 0 && Clean(s, lines) && Flat(0, lines) && NoBlank(lines)
  }

  lemma {:induction false} ReadStatement(s: State, base: nat, lines: seq<Line>)
    returns (statement: Statement, rest: seq<Line>)
    requires Rest(s, base) && Readable(s, lines) && lines != [] && Width(lines[0].lead) == base
    ensures WellOne(statement, base) && lines == PrintOne(statement, base) + rest && |rest| < |lines|
    ensures Readable(Run(s, PrintOne(statement, base)), rest) && NotDeeper(rest, base)
    decreases |lines|, 1
  {
    hide Run, Rest, Clean, Flat, NoBlank, Width, Spaces;
    if lines[0].content.DocComment? {
      rest := ReadDocumentation(s, base, lines);
      statement := Documentation;
    } else {
      assert lines[0].content.Code? by {
        FirstContent(lines);
      }
      var more, header;
      more, rest, header := ReadLines(s, base, lines);
      var first := lines[0].content.lexemes;
      if header {
        var body;
        body, rest := ReadBody(s, base, first, more, lines, rest);
        statement := Block(first, more, body);
      } else {
        ReadSimple(s, base, first, more, lines, rest);
        statement := Simple(first, more);
      }
    }
  }

  lemma FirstContent(lines: seq<Line>)
    requires NoBlank(lines) && lines != []
    ensures !lines[0].content.Nothing?
  {
    assert lines[0] in lines;
  }

  lemma ReadDocumentation(s: State, base: nat, lines: seq<Line>) returns (rest: seq<Line>)
    requires Rest(s, base) && Readable(s, lines) && lines != [] && Width(lines[0].lead) == base
    requires lines[0].content.DocComment?
    ensures lines == PrintOne(Documentation, base) + rest
    ensures Readable(Run(s, PrintOne(Documentation, base)), rest) && NotDeeper(rest, base)
  {
    hide Run, Clean, Width, Spaces, Step, Nesting, Flush;
    CleanFirst(s, lines);
    StepMonotone(s, lines[0]);
    WithoutTabs(lines[0].lead);
    rest := lines[1..];
    var line := Line(Spaces(base), DocComment);
    assert lines == [line] + rest;
    DocumentationStep(s, base);
    AtValid(s, base);
    DocumentationDone(s, base);
    var none: seq<Line> := [];
    RunFirst(s, line, none);
    RunNothing(Step(s, line));
    assert [line] + none == [line];
    var r := Step(s, line);
    if rest != [] {
      CleanFirst(r, rest);
      FirstContent(rest);
      LevelHere(r, base, rest[0]);
    }
  }

  lemma ReadLines(s: State, base: nat, lines: seq<Line>) returns (more: seq<Part>, rest: seq<Line>, header: bool)
    requires Rest(s, base) && Readable(s, lines) && lines != [] && Width(lines[0].lead) == base
    requires lines[0].content.Code?
    ensures WellLines([], lines[0].content.lexemes, more, base, header)
    ensures lines == PrintLogical(lines[0].content.lexemes, more, base) + rest && |rest| < |lines|
    ensures Flat(0, rest) && NoBlank(rest) && (!header && rest != [] ==> !MayContinue(rest[0], base))
  {
    hide Run, Clean, Width, Spaces, Nesting, Flush, BeginLine;
    StartsAt(s, base, false);
    AtValid(s, base);
    more, rest, header := ReadLogical(s, At(Flush(s, base), s.diagnostics, base), base, lines);
  }

  lemma ReadSimple(s: State, base: nat, first: seq<Lexeme>, more: seq<Part>, lines: seq<Line>, rest: seq<Line>)
    requires Rest(s, base) && Readable(s, lines) && WellLines([], first, more, base, false)
    requires lines == PrintLogical(first, more, base) + rest && Flat(0, rest) && NoBlank(rest)
    requires rest != [] ==> !MayContinue(rest[0], base)
    ensures Readable(Run(s, PrintOne(Simple(first, more), base)), rest) && NotDeeper(rest, base)
  {
    hide Run, Clean, Width, Spaces, Nesting, Flush, BeginLine, PrintLogical, WellLines, Flat, NoBlank;
    var printed := PrintLogical(first, more, base);
    CleanApart(s, printed, rest);
    SimpleDone(s, base, first, more);
    var r := Run(s, printed);
    SimplePending(s, base, first, more);
    if rest != [] {
      CleanFirst(r, rest);
      FirstContent(rest);
      LevelHere(r, base, rest[0]);
    }
  }

  /** After a statement without a body its own level is the current one, and it may be continued. */
  lemma SimplePending(s: State, base: nat, first: seq<Lexeme>, more: seq<Part>)
    requires Rest(s, base) && s.indents[0] == 0 && WellLines([], first, more, base, false)
    ensures var r := Run(s, PrintLogical(first, more, base));
            r.pending == Some(base) && r.expected.None? && r.indents != [] && Current(r) == base
  {
    hide Run, Spaces, BeginLine, Nesting, WellLines, Flush, Joined;
    StartsAt(s, base, false);
    AtValid(s, base);
    LogicalRuns(s, At(Flush(s, base), s.diagnostics, base), base, base, first, more, false);
  }

  lemma {:induction false} ReadBody(s: State, base: nat, first: seq<Lexeme>, more: seq<Part>, lines: seq<Line>,
                                    after: seq<Line>)
    returns (body: seq<Statement>, rest: seq<Line>)
    requires Rest(s, base) && Readable(s, lines) && WellLines([], first, more, base, true)
    requires lines == PrintLogical(first, more, base) + after && Flat(0, after) && NoBlank(after) && |after| < |lines|
    ensures body != [] && WellOne(Block(first, more, body), base)
    ensures lines == PrintOne(Block(first, more, body), base) + rest && |rest| < |lines|
    ensures Readable(Run(s, PrintOne(Block(first, more, body), base)), rest) && NotDeeper(rest, base)
    decreases |lines|, 0
  {
    hide Run, Clean, Rest, Width, Spaces, Nesting, Flush, PrintLogical, WellLines, Flat, NoBlank, Print;
    var printed := PrintLogical(first, more, base);
    CleanApart(s, printed, after);
    HeaderDone(s, base, first, more);
    var r := Run(s, printed);
    BottomAtRest(r, base + 4);
    if after == [] {
      CleanEnd(r);
    }
    body, rest := ReadForest(r, base + 4, after);
    var b := Print(body, base + 4);
    assert printed + after == printed + b + rest;
    RunAppend(s, printed, b);
    ForestDone(r, body, base + 4);
    LevelFour(s, base);
    BodyLevel(Run(r, b), base, rest);
  }

  /** After a body comes a line at an enclosing level. */
  lemma BodyLevel(r: State, base: nat, rest: seq<Line>)
    requires Rest(r, base + 4) && r.expected.None? && Readable(r, rest) && base % 4 == 0
    requires rest != [] ==> Width(rest[0].lead) < base + 4
    ensures NotDeeper(rest, base)
  {
    hide Clean, Width, Nesting;
    if rest != [] {
      CleanFirst(r, rest);
      FirstContent(rest);
      LevelHere(r, base + 4, rest[0]);
      RestLevel(r, base + 4);
      var w := Width(rest[0].lead);
      if !(r.pending.Some? && MayContinue(rest[0], r.pending.value)) {
        var i :| 0 <= i < |r.indents| && r.indents[i] == w;
        assert w == 4 * i;
      }
    }
  }

  lemma {:induction false} ReadForest(s: State, base: nat, lines: seq<Line>)
    returns (forest: seq<Statement>, rest: seq<Line>)
    requires Rest(s, base) && Readable(s, lines) && (s.expected.None? ==> NotDeeper(lines, base))
    ensures Well(forest, base) && lines == Print(forest, base) + rest && |rest| <= |lines|
    ensures Readable(Run(s, Print(forest, base)), rest) && (rest != [] ==> Width(rest[0].lead) < base)
    ensures s.expected.Some? && lines != [] ==> forest != []
    decreases |lines|, 2
  {
    hide Run, Clean, Rest, Width, Nesting, Flush, PrintOne, WellOne, Flat, NoBlank;
    if lines != [] {
      CleanFirst(s, lines);
      FirstContent(lines);
      LevelHere(s, base, lines[0]);
    }
    if lines == [] || Width(lines[0].lead) < base {
      forest, rest := [], lines;
      RunNothing(s);
    } else {
      var first, next;
      first, next := ReadStatement(s, base, lines);
      StatementDone(s, first, base);
      var r := Run(s, PrintOne(first, base));
      var others;
      others, rest := ReadForest(r, base, next);
      forest := [first] + others;
      assert forest[1..] == others;
      RunAppend(s, PrintOne(first, base), Print(others, base));
      assert PrintOne(first, base) + (Print(others, base) + rest) == Print(forest, base) + rest;
    }
  }

  // ------------------------------------------------------------------ whole files

  lemma {:induction false} WithoutBlankFirst(line: Line, lines: seq<Line>)
    ensures WithoutBlank([line] + lines) == (if line.content.Nothing? then [] else [line]) + WithoutBlank(lines)
    decreases lines
  {
    var all := [line] + lines;
    if lines == [] {
      var none: seq<Line> := [];
      assert all[..|all| - 1] == none;
      assert WithoutBlank(none) == none;
    } else {
      assert all[..|all| - 1] == [line] + lines[..|lines| - 1];
      WithoutBlankFirst(line, lines[..|lines| - 1]);
    }
  }

  lemma {:induction false} FlatWithoutBlank(depth: int, lines: seq<Line>)
    requires Flat(depth, lines)
    ensures Flat(depth, WithoutBlank(lines)) && NoBlank(WithoutBlank(lines))
    decreases lines
  {
    if lines != [] {
      var rest := lines[1..];
      assert lines == [lines[0]] + rest;
      WithoutBlankFirst(lines[0], rest);
      match lines[0].content
      case Nothing =>
        FlatWithoutBlank(depth, rest);
        assert WithoutBlank(lines) == WithoutBlank(rest);
      case DocComment =>
        FlatWithoutBlank(depth, rest);
        assert WithoutBlank(lines)[1..] == WithoutBlank(rest);
      case Code(lexemes) =>
        FlatWithoutBlank(depth + Balance(lexemes), rest);
        assert WithoutBlank(lines)[1..] == WithoutBlank(rest);
    }
  }

  /** The lines are a printed forest but for blank and comment lines. */
  ghost predicate IsPrinted(lines: seq<Line>) {
    exists forest :: Well(forest, 0) && WithoutBlank(lines) == Print(forest, 0)
  }

  /** The layout engine reports nothing exactly when the file is a printed forest but for blank and
      comment lines, none of which is indented with a tab. */
  lemma LayoutExactly(lines: seq<Line>)
    requires Flat(0, lines)
    ensures Lex(lines).diagnostics == 0 <==> IsPrinted(lines) && TabbedBlanks(lines) == 0
  {
    hide Run, Finish, Print, Well, WithoutBlank, TabbedBlanks, Flat, NoBlank;
    if IsPrinted(lines) {
      var forest :| Well(forest, 0) && WithoutBlank(lines) == Print(forest, 0);
      LayoutInverts(lines, forest);
    }
    if Lex(lines).diagnostics == 0 {
      BlankIgnored(Initial(), lines);
      var code := WithoutBlank(lines);
      FinishReported(Run(Initial(), code), TabbedBlanks(lines));
      FlatWithoutBlank(0, lines);
      InitialRest();
      Outermost(code);
      var forest, rest := ReadForest(Initial(), 0, code);
      assert code == Print(forest, 0);
    }
  }

  /** The first line stands at the left margin. */
  lemma Outermost(code: seq<Line>)
    requires Clean(Initial(), code) && NoBlank(code)
    ensures NotDeeper(code, 0)
  {
    hide Clean, Width;
    if code != [] {
      CleanFirst(Initial(), code);
      FirstContent(code);
      InitialRest();
      LevelHere(Initial(), 0, code[0]);
    }
  }
}
