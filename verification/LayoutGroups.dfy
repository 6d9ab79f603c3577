/** Blocks inside open delimiters: the layout engine inverts a block printer for statements that have
    them, too (src/lexer.rs:181-263).

    While such a block is read every line is laid out as if no delimiter were open.  So reading it is
    reading a forest without delimiters, theirs masked as words.
 */
module LayoutGroups {
  import opened Layout
  import opened LayoutRoundTrip
  import opened LayoutRules
  import opened Wrappers

  /** A statement as it stands in a file, its lines interrupted by blocks that begin inside open
      delimiters; a body makes it a block header. */
  datatype Entry =
    | Remark
    | Logical(first: seq<Lexeme>, more: seq<Part>, inserts: seq<Insert>, body: seq<Entry>)

  /** A block inside delimiters, and the lines of the statement that follow it. */
  datatype Insert = Insert(inside: seq<Statement>, first: seq<Lexeme>, more: seq<Part>)

  // ------------------------------------------------------------------ printing and bracketing

  function PrintEntries(entries: seq<Entry>, base: nat): seq<Line>
    decreases entries, 1
  {
    if entries == [] then [] else PrintEntry(entries[0], base) + PrintEntries(entries[1..], base)
  }

  function PrintEntry(e: Entry, base: nat): seq<Line>
    decreases e, 0
  {
    match e
    case Remark => [Line(Spaces(base), DocComment)]
    case Logical(first, more, inserts, body) =>
      PrintLogical(first, more, base) + PrintInserts(inserts, base) + PrintEntries(body, base + 4)
  }

  function PrintInserts(inserts: seq<Insert>, base: nat): seq<Line> {
    if inserts == [] then []
    else
      Print(inserts[0].inside, base + 4) + PrintLogical(inserts[0].first, inserts[0].more, base)
      + PrintInserts(inserts[1..], base)
  }

  function BracketedEntries(entries: seq<Entry>): seq<Tok>
    decreases entries, 1
  {
    if entries == [] then [] else BracketedEntry(entries[0]) + BracketedEntries(entries[1..])
  }

  function BracketedEntry(e: Entry): seq<Tok>
    decreases e, 0
  {
    match e
    case Remark => [Doc, Newline]
    case Logical(first, more, inserts, body) =>
      Joined(first, more) + InsertTokens(inserts)
      + if body == [] then [Newline] else [Newline, Indent] + BracketedEntries(body) + [Dedent]
  }

  function InsertTokens(inserts: seq<Insert>): seq<Tok> {
    if inserts == [] then []
    else
      [Newline, Indent] + Bracketed(inserts[0].inside) + [Dedent] + Joined(inserts[0].first, inserts[0].more)
      + InsertTokens(inserts[1..])
  }

  // ------------------------------------------------------------------ statements that can be written

  /** The delimiters open after the lines. */
  function OpenedLines(open: seq<Bracket>, lexemes: seq<Lexeme>, more: seq<Part>): Option<seq<Bracket>>
    decreases more
  {
    var after := Opened(open, lexemes);
    if after.None? || more == [] then after else OpenedLines(after.value, more[0].lexemes, more[1..])
  }

  /** Lines that end in a colon while delimiters are open. */
  ghost predicate WellHead(open: seq<Bracket>, lexemes: seq<Lexeme>, more: seq<Part>, base: nat)
    decreases more
  {
    && lexemes != [] && Opened(open, lexemes).Some?
    && var after := Opened(open, lexemes).value;
       if more == [] then after != [] && EndsInColon(lexemes)
       else
         && !EndsInColon(lexemes) && (after == [] ==> more[0].indent == base + 4)
         && WellHead(after, more[0].lexemes, more[1..], base)
  }

  /** Lines laid out without regard to delimiters: each that continues a statement stands four spaces
      in, and exactly the last line of a header ends in a colon. */
  ghost predicate WellLoose(lexemes: seq<Lexeme>, more: seq<Part>, base: nat, header: bool)
    decreases more
  {
    && lexemes != []
    && if more == [] then EndsInColon(lexemes) == header
       else !EndsInColon(lexemes) && more[0].indent == base + 4 && WellLoose(more[0].lexemes, more[1..], base, header)
  }

  ghost predicate WellInside(statements: seq<Statement>, base: nat)
    decreases statements, 1
  {
    forall s :: s in statements ==> WellInsideOne(s, base)
  }

  ghost predicate WellInsideOne(s: Statement, base: nat)
    decreases s, 0
  {
    match s
    case Documentation => true
    case Simple(first, more) => WellLoose(first, more, base, false)
    case Block(first, more, body) => WellLoose(first, more, base, true) && body != [] && WellInside(body, base + 4)
  }

  /** What the lines hold, one after another. */
  function LineLexemes(lines: seq<Line>): seq<Lexeme> {
    if lines == [] then []
    else (if lines[0].content.Code? then lines[0].content.lexemes else []) + LineLexemes(lines[1..])
  }

  /** The lines of a statement and the blocks between them: a block stands where delimiters are open,
      closes what it opens, and the line after it closes what was open where it stands. */
  ghost predicate WellLogical(open: seq<Bracket>, first: seq<Lexeme>, more: seq<Part>, inserts: seq<Insert>, base: nat,
                              header: bool)
    decreases inserts
  {
    if inserts == [] then WellLines(open, first, more, base, header)
    else
      && WellHead(open, first, more, base) && OpenedLines(open, first, more).Some?
      && var (d, i) := (OpenedLines(open, first, more).value, inserts[0]);
         && i.inside != [] && WellInside(i.inside, base + 4)
         && Opened([], LineLexemes(Print(i.inside, base + 4))) == Some([])
         && i.first != [] && Opened(d, i.first).Some? && |Opened(d, i.first).value| < |d|
         && WellLogical(d, i.first, i.more, inserts[1..], base, header)
  }

  ghost predicate WellEntries(entries: seq<Entry>, base: nat)
    decreases entries, 1
  {
    forall e :: e in entries ==> WellEntry(e, base)
  }

  ghost predicate WellEntry(e: Entry, base: nat)
    decreases e, 0
  {
    match e
    case Remark => true
    case Logical(first, more, inserts, body) =>
      WellLogical([], first, more, inserts, base, body != []) && WellEntries(body, base + 4)
  }

  // ------------------------------------------------------------------ masks

  function Mark(b: Bracket): nat {
    match b
    case Parenthesis => 0
    case Square => 1
    case Brace => 2
  }

  /** The lexeme as one that is no delimiter, no two alike. */
  function Mask(l: Lexeme): Lexeme {
    match l
    case Word(id) => Word(id + 6)
    case Open(b) => Word(Mark(b))
    case Close(b) => Word(Mark(b) + 3)
    case Colon => Colon
  }

  function MaskTok(t: Tok): Tok {
    if t.Plain? then Plain(Mask(t.lexeme)) else t
  }

  function MaskToks(ts: seq<Tok>): seq<Tok> {
    seq(|ts|, i requires 0 <= i < |ts| => MaskTok(ts[i]))
  }

  function MaskLexemes(ls: seq<Lexeme>): seq<Lexeme> {
    seq(|ls|, i requires 0 <= i < |ls| => Mask(ls[i]))
  }

  lemma MaskInjective(a: seq<Tok>, b: seq<Tok>)
    requires MaskToks(a) == MaskToks(b)
    ensures a == b
  {
    assert |MaskToks(a)| == |MaskToks(b)|;
    forall i | 0 <= i < |a| ensures a[i] == b[i] {
      assert MaskToks(a)[i] == MaskToks(b)[i];
      MaskApart(a[i], b[i]);
    }
  }

  lemma MaskApart(a: Tok, b: Tok)
    requires MaskTok(a) == MaskTok(b)
    ensures a == b
  {
  }

  lemma MaskAppend(a: seq<Tok>, b: seq<Tok>)
    ensures MaskToks(a + b) == MaskToks(a) + MaskToks(b)
  {
  }

  lemma {:induction false} MaskPlains(ls: seq<Lexeme>)
    ensures MaskToks(Plains(ls)) == Plains(MaskLexemes(ls))
  {
    if ls != [] {
      var init := ls[..|ls| - 1];
      MaskPlains(init);
      assert MaskLexemes(ls)[..|ls| - 1] == MaskLexemes(init);
      MaskAppend(Plains(init), [Plain(ls[|ls| - 1])]);
    }
  }

  lemma {:induction false} MaskedOpens(ls: seq<Lexeme>)
    ensures Opened([], MaskLexemes(ls)) == Some([])
  {
    if ls != [] {
      MaskedOpens(ls[..|ls| - 1]);
      var (m, last) := (MaskLexemes(ls), Mask(ls[|ls| - 1]));
      assert m[..|m| - 1] == MaskLexemes(ls[..|ls| - 1]) && m[|m| - 1] == last;
      assert !last.Open? && !last.Close?;
    }
  }

  lemma {:induction false} MaskNests(ts: seq<Tok>)
    ensures Nesting(MaskToks(ts)) == Nesting(ts) && (NoEof(ts) ==> NoEof(MaskToks(ts)))
  {
    if ts != [] {
      MaskNests(ts[..|ts| - 1]);
      assert MaskToks(ts)[..|ts| - 1] == MaskToks(ts[..|ts| - 1]);
    }
    if NoEof(ts) {
      forall t | t in MaskToks(ts) ensures t != Eof {
        var i :| 0 <= i < |ts| && MaskToks(ts)[i] == t;
        assert ts[i] in ts;
      }
    }
  }

  function MaskLine(line: Line): Line {
    if line.content.Code? then Line(line.lead, Code(MaskLexemes(line.content.lexemes))) else line
  }

  function MaskLines(lines: seq<Line>): seq<Line> {
    if lines == [] then [] else [MaskLine(lines[0])] + MaskLines(lines[1..])
  }

  function MaskParts(more: seq<Part>): seq<Part> {
    if more == [] then [] else [Part(more[0].indent, MaskLexemes(more[0].lexemes))] + MaskParts(more[1..])
  }

  function MaskAll(statements: seq<Statement>): seq<Statement>
    decreases statements, 1
  {
    if statements == [] then [] else [MaskOne(statements[0])] + MaskAll(statements[1..])
  }

  function MaskOne(s: Statement): Statement
    decreases s, 0
  {
    match s
    case Documentation => Documentation
    case Simple(first, more) => Simple(MaskLexemes(first), MaskParts(more))
    case Block(first, more, body) => Block(MaskLexemes(first), MaskParts(more), MaskAll(body))
  }

  // ------------------------------------------------------------------ masked forests

  lemma {:induction false} MaskLinesAppend(a: seq<Line>, b: seq<Line>)
    ensures MaskLines(a + b) == MaskLines(a) + MaskLines(b)
  {
    if a == [] {
      assert a + b == b;
    } else {
      assert (a + b)[1..] == a[1..] + b;
      MaskLinesAppend(a[1..], b);
    }
  }

  lemma {:induction false} MaskedParts(more: seq<Part>)
    ensures MaskLines(PrintParts(more)) == PrintParts(MaskParts(more))
  {
    hide Spaces;
    if more != [] {
      MaskedParts(more[1..]);
      assert PrintParts(more)[1..] == PrintParts(more[1..]);
      assert MaskParts(more)[1..] == MaskParts(more[1..]);
    }
  }

  lemma MaskedLogical(first: seq<Lexeme>, more: seq<Part>, base: nat)
    ensures MaskLines(PrintLogical(first, more, base)) == PrintLogical(MaskLexemes(first), MaskParts(more), base)
  {
    hide Spaces;
    MaskedParts(more);
    assert PrintLogical(first, more, base)[1..] == PrintParts(more);
  }

  lemma {:induction false} MaskedPrint(statements: seq<Statement>, base: nat)
    ensures MaskLines(Print(statements, base)) == Print(MaskAll(statements), base)
    decreases statements, 1
  {
    if statements != [] {
      MaskedPrintOne(statements[0], base);
      MaskedPrint(statements[1..], base);
      MaskLinesAppend(PrintOne(statements[0], base), Print(statements[1..], base));
      assert MaskAll(statements)[1..] == MaskAll(statements[1..]);
    }
  }

  lemma {:induction false} MaskedPrintOne(s: Statement, base: nat)
    ensures MaskLines(PrintOne(s, base)) == PrintOne(MaskOne(s), base)
    decreases s, 0
  {
    match s
    case Documentation =>
      var none: seq<Line> := [];
      assert [Line(Spaces(base), DocComment)][1..] == none;
    case Simple(first, more) => MaskedLogical(first, more, base);
    case Block(first, more, body) =>
      MaskedLogical(first, more, base);
      MaskedPrint(body, base + 4);
      MaskLinesAppend(PrintLogical(first, more, base), Print(body, base + 4));
  }

  lemma {:induction false} MaskedJoined(first: seq<Lexeme>, more: seq<Part>)
    ensures MaskToks(Joined(first, more)) == Joined(MaskLexemes(first), MaskParts(more))
    decreases more
  {
    hide MaskToks, Plains;
    MaskPlains(first);
    if more != [] {
      MaskedJoined(more[0].lexemes, more[1..]);
      MaskAppend(Plains(first), Joined(more[0].lexemes, more[1..]));
      assert MaskParts(more)[1..] == MaskParts(more[1..]);
    }
  }

  lemma {:induction false} MaskedBrackets(statements: seq<Statement>)
    ensures MaskToks(Bracketed(statements)) == Bracketed(MaskAll(statements))
    decreases statements, 1
  {
    if statements != [] {
      MaskedBracketsOne(statements[0]);
      MaskedBrackets(statements[1..]);
      MaskAppend(BracketedOne(statements[0]), Bracketed(statements[1..]));
      assert MaskAll(statements)[1..] == MaskAll(statements[1..]);
    }
  }

  lemma {:induction false} MaskedBracketsOne(s: Statement)
    ensures MaskToks(BracketedOne(s)) == BracketedOne(MaskOne(s))
    decreases s, 0
  {
    match s
    case Documentation =>
    case Simple(first, more) =>
      MaskedJoined(first, more);
      MaskAppend(Joined(first, more), [Newline]);
    case Block(first, more, body) =>
      MaskedJoined(first, more);
      MaskedBrackets(body);
      MaskAppend(Joined(first, more), [Newline, Indent]);
      MaskAppend(Joined(first, more) + [Newline, Indent], Bracketed(body));
      MaskAppend(Joined(first, more) + [Newline, Indent] + Bracketed(body), [Dedent]);
  }

  lemma {:induction false} MaskedLines(lexemes: seq<Lexeme>, more: seq<Part>, base: nat, header: bool)
    requires WellLoose(lexemes, more, base, header)
    ensures WellLines([], MaskLexemes(lexemes), MaskParts(more), base, header)
    decreases more
  {
    hide Opened;
    MaskedOpens(lexemes);
    if more != [] {
      MaskedLines(more[0].lexemes, more[1..], base, header);
      assert MaskParts(more)[1..] == MaskParts(more[1..]);
    }
  }

  lemma {:induction false} MaskedWell(statements: seq<Statement>, base: nat)
    requires WellInside(statements, base)
    ensures Well(MaskAll(statements), base)
    decreases statements, 1
  {
    hide WellInsideOne, WellOne, MaskOne;
    if statements != [] {
      assert statements[0] in statements;
      MaskedWellOne(statements[0], base);
      MaskedWell(statements[1..], base);
    }
  }

  lemma {:induction false} MaskedWellOne(s: Statement, base: nat)
    requires WellInsideOne(s, base)
    ensures WellOne(MaskOne(s), base)
    decreases s, 0
  {
    match s
    case Documentation =>
    case Simple(first, more) => MaskedLines(first, more, base, false);
    case Block(first, more, body) =>
      MaskedLines(first, more, base, true);
      MaskedWell(body, base + 4);
  }

  // ------------------------------------------------------------------ delimiters of one line after another

  lemma {:induction false} OpenedAppend(open: seq<Bracket>, a: seq<Lexeme>, b: seq<Lexeme>)
    ensures Opened(open, a + b) == if Opened(open, a).None? then None else Opened(Opened(open, a).value, b)
    decreases b
  {
    if b == [] {
      assert a + b == a;
    } else {
      assert (a + b)[..|a + b| - 1] == a + b[..|b| - 1];
      OpenedAppend(open, a, b[..|b| - 1]);
    }
  }

  /** What stands below is not touched. */
  lemma {:induction false} OpenedAbove(below: seq<Bracket>, open: seq<Bracket>, lexemes: seq<Lexeme>)
    requires Opened(open, lexemes).Some?
    ensures Opened(below + open, lexemes) == Some(below + Opened(open, lexemes).value)
  {
    if lexemes != [] {
      var init := lexemes[..|lexemes| - 1];
      OpenedAbove(below, open, init);
      var before := Opened(open, init).value;
      match lexemes[|lexemes| - 1]
      case Open(b) => assert (below + before) + [b] == below + (before + [b]);
      case Close(b) => assert (below + before)[..|below + before| - 1] == below + before[..|before| - 1];
      case _ =>
    }
  }

  // ------------------------------------------------------------------ reading a block inside delimiters

  /** The state with its delimiters masked and its blocks inside delimiters forgotten. */
  ghost function Masked(s: State): State {
    s.(tokens := MaskToks(s.tokens), delimiters := [], grouped := [])
  }

  /** A block that began at `base` inside the delimiters `d` is being read. */
  ghost predicate InGroup(s: State, d: seq<Bracket>, base: nat) {
    && s.indents != [] && s.indents[0] == 0 && d <= s.delimiters
    && s.grouped != [] && s.grouped[0] == Group(|d|, base)
    && (forall g :: g in s.grouped ==> g.delimiterDepth >= |d| && g.baseIndent >= base)
    && (s.active.Some? ==> s.active.value >= base)
  }

  /** The block stands open, four spaces in from `base`, or its first line is awaited. */
  ghost predicate Floor(s: State, base: nat) {
    base + 4 in s.indents || s.expected == Some(base)
  }

  lemma {:induction false} MaskedPop(s: State, indent: nat)
    requires s.indents != [] && s.indents[0] == 0
    ensures Pop(Masked(s), indent) == Masked(Pop(s, indent))
    ensures Pop(s, indent) == s.(tokens := Pop(s, indent).tokens, indents := Pop(s, indent).indents)
    decreases |s.indents|
  {
    hide MaskToks;
    if Current(s) > indent {
      var t := Emit(s.(indents := s.indents[..|s.indents| - 1]), Dedent);
      MaskEmit(s.tokens, Dedent);
      MaskedPop(t, indent);
    }
  }

  lemma MaskEmit(ts: seq<Tok>, t: Tok)
    ensures MaskToks(ts + [t]) == MaskToks(ts) + [MaskTok(t)]
  {
    MaskAppend(ts, [t]);
    assert MaskToks([t]) == [MaskTok(t)];
  }

  lemma MaskedApply(s: State, indent: nat)
    requires s.indents != [] && s.indents[0] == 0
    ensures Apply(Masked(s), indent) == Masked(Apply(s, indent))
    ensures Apply(s, indent).delimiters == s.delimiters && Apply(s, indent).grouped == s.grouped
    ensures Apply(s, indent).pending == s.pending && Apply(s, indent).active == s.active
    ensures Apply(s, indent).expected == s.expected
  {
    hide MaskToks, Pop;
    MaskedPop(s, indent);
    MaskedPop(Fault(s), indent);
  }

  lemma MaskedPrepare(s: State, indent: nat, doc: bool)
    requires s.indents != [] && s.indents[0] == 0
    ensures Prepare(Masked(s), indent, doc) == (Masked(Prepare(s, indent, doc).0), Prepare(s, indent, doc).1)
    ensures Prepare(s, indent, doc).0.delimiters == s.delimiters && Prepare(s, indent, doc).0.grouped == s.grouped
    ensures Prepare(s, indent, doc).1 ==> Prepare(s, indent, doc).0.active == s.active
  {
    hide MaskToks, Apply;
    var t := if s.pending.Some? then Emit(s, Newline).(pending := None, active := None) else s;
    MaskEmit(s.tokens, Newline);
    MaskedApply(t, indent);
    MaskedApply(Fault(t.(expected := None)), indent);
    MaskEmit(t.tokens, Indent);
  }

  lemma MaskedBegin(s: State, indent: nat, doc: bool)
    requires s.indents != [] && s.indents[0] == 0 && s.grouped != []
    ensures BeginLine(Masked(s), indent, doc) == Masked(BeginLine(s, indent, doc))
    ensures var u := BeginLine(s, indent, doc);
            && u.delimiters == s.delimiters && u.grouped == s.grouped
            && (u.active == s.active || (u.indents != [] && u.active == Some(Current(u))))
  {
    hide MaskToks, Prepare;
    MaskedPrepare(s, indent, doc);
  }

  lemma {:induction false} PopFloor(s: State, indent: nat, floor: nat)
    requires s.indents != [] && s.indents[0] == 0 && floor in s.indents && floor <= indent
    ensures floor in Pop(s, indent).indents
    decreases |s.indents|
  {
    if Current(s) > indent {
      assert s.indents == s.indents[..|s.indents| - 1] + [Current(s)];
      PopFloor(Emit(s.(indents := s.indents[..|s.indents| - 1]), Dedent), indent, floor);
    }
  }

  /** A line that deep leaves the block open. */
  lemma FloorHolds(s: State, indent: nat, doc: bool, base: nat)
    requires s.indents != [] && s.indents[0] == 0 && Floor(s, base) && indent >= base + 4 && s.grouped != []
    requires s.pending.Some? ==> s.expected.None?
    ensures base + 4 in BeginLine(s, indent, doc).indents
  {
    hide Pop;
    var t := if s.pending.Some? then Emit(s, Newline).(pending := None, active := None) else s;
    var u := if t.expected.Some? then Fault(t.(expected := None)) else t;
    if base + 4 in s.indents {
      PopFloor(u, indent, base + 4);
      PopFloor(Fault(u), indent, base + 4);
    }
  }

  /** The block that began first stays while the line is deeper than it. */
  lemma {:induction false} UngroupInside(v: State, d: seq<Bracket>, base: nat)
    requires v.indents != [] && v.grouped != [] && v.grouped[0] == Group(|d|, base)
    requires Current(v) > base || |v.delimiters| >= |d|
    ensures Ungroup(v).grouped != [] && Ungroup(v).grouped <= v.grouped
    decreases |v.grouped|
  {
    var last := v.grouped[|v.grouped| - 1];
    if |v.delimiters| < last.delimiterDepth && Current(v) <= last.baseIndent {
      UngroupInside(v.(grouped := v.grouped[..|v.grouped| - 1]), d, base);
    }
  }

  lemma LastMasked(ts: seq<Tok>)
    ensures (ts != [] && ts[|ts| - 1] == Plain(Colon))
         <==> (MaskToks(ts) != [] && MaskToks(ts)[|MaskToks(ts)| - 1] == Plain(Colon))
  {
    if ts != [] {
      assert MaskToks(ts)[|ts| - 1] == MaskTok(ts[|ts| - 1]);
    }
  }

  lemma MaskedEnd(w: State, indent: nat, doc: bool, d: seq<Bracket>, base: nat)
    requires InGroup(w, d, base) && indent >= base
    ensures EndLine(Masked(w), indent, doc) == Masked(EndLine(w, indent, doc))
    ensures InGroup(EndLine(w, indent, doc), d, base)
    ensures EndLine(w, indent, doc).delimiters == w.delimiters
  {
    hide MaskToks;
    LastMasked(w.tokens);
    MaskEmit(w.tokens, Newline);
  }

  /** A line that a block inside delimiters may hold. */
  ghost predicate Fits(line: Line, base: nat) {
    && Tab !in line.lead && Width(line.lead) >= base + 4
    && (line.content.DocComment? || (line.content.Code? && line.content.lexemes != []))
  }

  lemma LexedMasked(u: State, line: Line, d: seq<Bracket>, x: seq<Bracket>)
    requires u.delimiters == d + x && Opened(x, LineLexemes([line])).Some? && !line.content.Nothing?
    ensures var doc := line.content.DocComment?;
            var v := if doc then Emit(u, Doc) else LexLine(u, line.content.lexemes);
            && Masked(v)
               == (if doc then Emit(Masked(u), Doc) else LexLine(Masked(u), MaskLexemes(line.content.lexemes)))
            && v.delimiters == d + Opened(x, LineLexemes([line])).value
            && v == u.(tokens := v.tokens, delimiters := v.delimiters)
            && |v.tokens| == |u.tokens| + if doc then 1 else |line.content.lexemes|
  {
    hide MaskToks, MaskLexemes, Opened, LexLine, Plains;
    if line.content.DocComment? {
      MaskEmit(u.tokens, Doc);
      OneLine(line);
      NothingOpened(x);
    } else {
      var ls := line.content.lexemes;
      OneLine(line);
      OpenedAbove(d, x, ls);
      LexKeeps(u, ls);
      LexOpens(u, ls);
      MaskedOpens(ls);
      LexKeeps(Masked(u), MaskLexemes(ls));
      LexOpens(Masked(u), MaskLexemes(ls));
      MaskAppend(u.tokens, Plains(ls));
      MaskPlains(ls);
      PlainsLast(ls);
    }
  }

  lemma NothingOpened(x: seq<Bracket>)
    ensures Opened(x, []) == Some(x)
  {
  }

  lemma OneLine(line: Line)
    ensures LineLexemes([line]) == if line.content.Code? then line.content.lexemes else []
  {
    var none: seq<Line> := [];
    assert [line][1..] == none && LineLexemes(none) == [];
  }

  lemma InLevels(v: State, base: nat)
    requires v.indents != [] && v.indents == Levels(|v.indents| - 1) && base + 4 in v.indents
    ensures Current(v) > base
  {
    var i :| 0 <= i < |v.indents| && v.indents[i] == base + 4;
    assert v.indents[i] == 4 * i && Current(v) == 4 * (|v.indents| - 1);
  }

  lemma GroupsInside(v: State, w: State, d: seq<Bracket>, base: nat)
    requires InGroup(v, d, base) && w == v.(grouped := w.grouped) && w.grouped != [] && w.grouped <= v.grouped
    ensures InGroup(w, d, base)
  {
    assert w.grouped[0] == v.grouped[0];
    forall g | g in w.grouped ensures g in v.grouped {
    }
  }

  /** A line in a block inside delimiters is laid out as if no delimiter were open. */
  lemma MaskedStep(s: State, line: Line, d: seq<Bracket>, x: seq<Bracket>, base: nat)
    requires Valid(s) && ActiveHere(s) && (s.pending.Some? ==> s.expected.None?)
    requires InGroup(s, d, base) && Floor(s, base) && Fits(line, base) && s.delimiters == d + x
    requires Opened(x, LineLexemes([line])).Some?
    ensures Masked(Step(s, line)) == Step(Masked(s), MaskLine(line))
    ensures InGroup(Step(s, line), d, base) && Floor(Step(s, line), base)
    ensures Step(s, line).delimiters == d + Opened(x, LineLexemes([line])).value
    ensures Step(s, line).pending.Some? ==> Step(s, line).expected.None?
  {
    hide Width, BeginLine, LexLine, Ungroup, MaskToks, MaskLexemes, Opened, Nesting, Levels, EndLine;
    var (indent, doc) := (Width(line.lead), line.content.DocComment?);
    MaskedBegin(s, indent, doc);
    FloorHolds(s, indent, doc, base);
    BeginValid(s, indent, doc);
    var u := BeginLine(s, indent, doc);
    var v := if doc then Emit(u, Doc) else LexLine(u, line.content.lexemes);
    LexedMasked(u, line, d, x);
    InLevels(u, base);
    UngroupInside(v, d, base);
    UngroupKeeps(v);
    var w := Ungroup(v);
    GroupsInside(v, w, d, base);
    MaskedEnd(w, indent, doc, d, base);
    EndFloor(w, indent, doc, base);
    BeginExpects(s, indent, doc);
    if !doc {
      MaskLength(line);
    }
    MaskedLength(u.tokens);
    MaskedLength(w.tokens);
    UngroupNone(Masked(v));
  }

  lemma MaskLength(line: Line)
    requires line.content.Code?
    ensures |MaskLexemes(line.content.lexemes)| == |line.content.lexemes|
  {
  }

  lemma MaskedLength(ts: seq<Tok>)
    ensures |MaskToks(ts)| == |ts|
  {
  }

  lemma UngroupNone(v: State)
    requires v.indents != [] && v.grouped == []
    ensures Ungroup(v) == v
  {
  }

  lemma EndFloor(w: State, indent: nat, doc: bool, base: nat)
    requires w.indents != [] && base + 4 in w.indents
    ensures Floor(EndLine(w, indent, doc), base)
    ensures w.pending.None? && w.expected.None? ==>
              (EndLine(w, indent, doc).pending.Some? ==> EndLine(w, indent, doc).expected.None?)
  {
  }

  lemma BeginExpects(s: State, indent: nat, doc: bool)
    requires s.indents != [] && s.indents[0] == 0 && s.grouped != [] && (s.pending.Some? ==> s.expected.None?)
    ensures BeginLine(s, indent, doc).pending.None? && BeginLine(s, indent, doc).expected.None?
  {
    hide Apply;
    var t := if s.pending.Some? then Emit(s, Newline).(pending := None, active := None) else s;
    MaskedApply(t, indent);
    MaskedApply(Fault(t.(expected := None)), indent);
  }

  // ------------------------------------------------------------------ a whole block inside delimiters

  lemma {:induction false} RunMasked(s: State, lines: seq<Line>, d: seq<Bracket>, x: seq<Bracket>, base: nat)
    requires Valid(s) && ActiveHere(s) && (s.pending.Some? ==> s.expected.None?)
    requires InGroup(s, d, base) && Floor(s, base) && s.delimiters == d + x
    requires (forall line :: line in lines ==> Fits(line, base)) && Opened(x, LineLexemes(lines)).Some?
    ensures Masked(Run(s, lines)) == Run(Masked(s), MaskLines(lines))
    ensures InGroup(Run(s, lines), d, base) && Run(s, lines).delimiters == d + Opened(x, LineLexemes(lines)).value
    decreases |lines|
  {
    hide Run, Step, Masked, InGroup, Floor, Fits, Valid, ActiveHere, Opened, MaskLine;
    GroupBottom(s, d, base);
    if lines == [] {
      RunNothing(s);
      RunNothing(Masked(s));
      NothingOpened(x);
    } else {
      var (line, rest) := (lines[0], lines[1..]);
      assert lines == [line] + rest && line in lines;
      FirstLexemes(line, rest);
      OpenedAppend(x, LineLexemes([line]), LineLexemes(rest));
      MaskedStep(s, line, d, x, base);
      StepValid(s, line);
      RunFirst(s, line, rest);
      RunFirst(Masked(s), MaskLine(line), MaskLines(rest));
      RunMasked(Step(s, line), rest, d, Opened(x, LineLexemes([line])).value, base);
    }
  }

  lemma GroupBottom(s: State, d: seq<Bracket>, base: nat)
    requires InGroup(s, d, base)
    ensures s.indents != [] && s.indents[0] == 0 && Masked(s).indents == s.indents
  {
  }

  lemma FirstLexemes(line: Line, rest: seq<Line>)
    ensures LineLexemes([line] + rest) == LineLexemes([line]) + LineLexemes(rest)
  {
    OneLine(line);
    assert ([line] + rest)[1..] == rest;
  }

  lemma {:induction false} PartsFit(more: seq<Part>, at: nat, lexemes: seq<Lexeme>, header: bool, base: nat)
    requires WellLoose(lexemes, more, at, header) && at >= base
    ensures forall line :: line in PrintParts(more) ==> Fits(line, base)
    decreases more
  {
    hide Spaces, Width;
    if more != [] {
      PartsFit(more[1..], at, more[0].lexemes, header, base);
      SpacesWidth(more[0].indent);
    }
  }

  lemma LogicalFits(first: seq<Lexeme>, more: seq<Part>, at: nat, header: bool, base: nat)
    requires WellLoose(first, more, at, header) && at >= base + 4
    ensures forall line :: line in PrintLogical(first, more, at) ==> Fits(line, base)
  {
    hide Spaces, Width;
    SpacesWidth(at);
    PartsFit(more, at, first, header, base);
  }

  lemma {:induction false} PrintedFits(statements: seq<Statement>, at: nat, base: nat)
    requires WellInside(statements, at) && at >= base + 4
    ensures forall line :: line in Print(statements, at) ==> Fits(line, base)
    decreases statements, 1
  {
    hide Fits, WellInsideOne;
    if statements != [] {
      assert statements[0] in statements;
      PrintedOneFits(statements[0], at, base);
      PrintedFits(statements[1..], at, base);
    }
  }

  lemma {:induction false} PrintedOneFits(s: Statement, at: nat, base: nat)
    requires WellInsideOne(s, at) && at >= base + 4
    ensures forall line :: line in PrintOne(s, at) ==> Fits(line, base)
    decreases s, 0
  {
    hide Spaces, Width;
    SpacesWidth(at);
    match s
    case Documentation =>
    case Simple(first, more) => LogicalFits(first, more, at, false, base);
    case Block(first, more, body) =>
      LogicalFits(first, more, at, true, base);
      PrintedFits(body, at + 4, base);
  }

  /** The state where a block inside the delimiters `d` is awaited. */
  ghost function Headed(u: State, base: nat, tokens: seq<Tok>, d: seq<Bracket>): State {
    u.(tokens := u.tokens + tokens + [Newline], pending := None, active := None, expected := Some(base),
       delimiters := d, grouped := [Group(|d|, base)])
  }

  lemma MaskedValid(s: State)
    requires Valid(s)
    ensures Valid(Masked(s))
  {
    hide Nesting, MaskToks;
    MaskNests(s.tokens);
  }

  /** After the block, a line at the level of its statement that closes delimiters goes on with the
      statement. */
  lemma InsertRuns(u: State, base: nat, tokens: seq<Tok>, d: seq<Bracket>, i: Insert)
    requires Within(u, base) && u.indents == Levels(base / 4) && d != []
    requires Valid(Headed(u, base, tokens, d)) && i.inside != [] && WellInside(i.inside, base + 4)
    requires Opened([], LineLexemes(Print(i.inside, base + 4))) == Some([])
    requires i.first != [] && Opened(d, i.first).Some? && |Opened(d, i.first).value| < |d|
    ensures var s := Headed(u, base, tokens, d);
            var u2 := u.(tokens := u.tokens + tokens + ([Newline, Indent] + Bracketed(i.inside) + [Dedent]),
                         delimiters := d);
            Run(s, Print(i.inside, base + 4) + [Line(Spaces(base), Code(i.first))])
            == EndLine(Lexed(u2, base, i.first), base, false)
  {
    hide Run, Spaces, Bracketed, Print, WellInside, EndLine, Nesting, MaskToks, Opened, LineLexemes, Valid, BeginLine,
      MaskAll;
    var (s, line) := (Headed(u, base, tokens, d), Line(Spaces(base), Code(i.first)));
    var r := Run(s, Print(i.inside, base + 4));
    HeadedRests(u, base, tokens, d);
    InsideRuns(u, base, tokens, d, i);
    RunAppend(s, Print(i.inside, base + 4), [line]);
    var none: seq<Line> := [];
    RunFirst(r, line, none);
    RunNothing(Step(r, line));
    assert [line] + none == [line];
    CloserStep(r, u, base, u.tokens + tokens + ([Newline, Indent] + Bracketed(i.inside) + [Dedent]), d, i.first);
  }

  /** The block itself, up to where the next line of its statement begins. */
  lemma InsideRuns(u: State, base: nat, tokens: seq<Tok>, d: seq<Bracket>, i: Insert)
    requires Within(u, base) && u.indents == Levels(base / 4)
    requires Valid(Headed(u, base, tokens, d)) && i.inside != [] && WellInside(i.inside, base + 4)
    requires Opened([], LineLexemes(Print(i.inside, base + 4))) == Some([])
    ensures var r := Run(Headed(u, base, tokens, d), Print(i.inside, base + 4));
            && InGroup(r, d, base) && r.delimiters == d
            && BeginLine(r, base, false)
               == u.(tokens := u.tokens + tokens + ([Newline, Indent] + Bracketed(i.inside) + [Dedent]),
                     delimiters := d, grouped := r.grouped)
  {
    hide Run, Spaces, Bracketed, Print, WellInside, EndLine, Nesting, MaskToks, Opened, LineLexemes, BeginLine,
      MaskAll, Well, Flush;
    var (s, lines, all) := (Headed(u, base, tokens, d), Print(i.inside, base + 4), MaskAll(i.inside));
    PrintedFits(i.inside, base + 4, base);
    assert s.delimiters == d + [];
    RunMasked(s, lines, d, [], base);
    var (r, p) := (Run(s, lines), Masked(s));
    assert r.delimiters == d;
    MaskedPrint(i.inside, base + 4);
    MaskedWell(i.inside, base + 4);
    MaskedBrackets(i.inside);
    HeadedRests(u, base, tokens, d);
    MaskAllSome(i.inside);
    ForestDone(p, all, base + 4);
    BodyDone(Masked(r), base);
    StartsAt(Masked(r), base, false);
    MaskedBegin(r, base, false);
    var v := BeginLine(r, base, false);
    TokensBack(v, p, s.tokens, i.inside);
    assert v.tokens == u.tokens + tokens + ([Newline, Indent] + Bracketed(i.inside) + [Dedent]);
    assert Masked(v) == At(Flush(Masked(r), base), p.diagnostics, base);
  }

  lemma TokensBack(v: State, p: State, ts: seq<Tok>, inside: seq<Statement>)
    requires MaskToks(v.tokens) == MaskToks(ts) + [Indent] + Bracketed(MaskAll(inside)) + [Dedent]
    ensures v.tokens == ts + ([Indent] + Bracketed(inside) + [Dedent])
  {
    hide MaskToks, Bracketed, MaskAll;
    MaskedBrackets(inside);
    MaskEmit(ts, Indent);
    MaskAppend(ts + [Indent], Bracketed(inside));
    MaskEmit(ts + [Indent] + Bracketed(inside), Dedent);
    MaskInjective(v.tokens, ts + [Indent] + Bracketed(inside) + [Dedent]);
    assert ts + [Indent] + Bracketed(inside) + [Dedent] == ts + ([Indent] + Bracketed(inside) + [Dedent]);
  }

  lemma HeadedRests(u: State, base: nat, tokens: seq<Tok>, d: seq<Bracket>)
    requires Within(u, base) && Valid(Headed(u, base, tokens, d))
    ensures var p := Masked(Headed(u, base, tokens, d));
            && Rest(p, base + 4) && base % 4 == 0
            && Flush(p, base + 4) == MaskToks(Headed(u, base, tokens, d).tokens) + [Indent]
    ensures InGroup(Headed(u, base, tokens, d), d, base)
  {
    hide Nesting, MaskToks;
    MaskedValid(Headed(u, base, tokens, d));
  }

  lemma MaskAllSome(statements: seq<Statement>)
    requires statements != []
    ensures MaskAll(statements) != []
  {
  }

  lemma {:induction false} UngroupAll(v: State)
    requires v.indents != []
    requires forall g :: g in v.grouped ==> |v.delimiters| < g.delimiterDepth && Current(v) <= g.baseIndent
    ensures Ungroup(v) == v.(grouped := [])
    decreases |v.grouped|
  {
    if v.grouped != [] {
      assert v.grouped[|v.grouped| - 1] in v.grouped;
      UngroupAll(v.(grouped := v.grouped[..|v.grouped| - 1]));
    }
  }

  /** The line that closes the delimiters a block stood in. */
  lemma CloserStep(r: State, u: State, base: nat, ts: seq<Tok>, d: seq<Bracket>, first: seq<Lexeme>)
    requires InGroup(r, d, base) && Within(u, base) && u.indents == Levels(base / 4) && base % 4 == 0
    requires BeginLine(r, base, false) == u.(tokens := ts, delimiters := d, grouped := r.grouped)
    requires first != [] && Opened(d, first).Some? && |Opened(d, first).value| < |d|
    ensures Step(r, Line(Spaces(base), Code(first)))
         == EndLine(Lexed(u.(tokens := ts, delimiters := d), base, first), base, false)
  {
    hide Width, Spaces, BeginLine, EndLine, Opened, Plains, LexLine, Ungroup;
    SpacesWidth(base);
    var b := BeginLine(r, base, false);
    LexKeeps(b, first);
    LexOpens(b, first);
    PlainsLast(first);
    var v := LexLine(b, first);
    UngroupAll(v);
    assert v.(grouped := []) == Lexed(u.(tokens := ts, delimiters := d), base, first);
  }

  // ------------------------------------------------------------------ logical lines

  /** The lines after the first of a statement, or of what follows a block in it. */
  lemma RestRuns(u: State, base: nat, indent: nat, lexemes: seq<Lexeme>, more: seq<Part>, header: bool)
    requires Within(u, base) && WellLines(u.delimiters, lexemes, more, base, header)
    ensures var s := EndLine(Lexed(u, base, lexemes), indent, false);
            && s.indents != [] && s.indents[0] == 0
            && Run(s, PrintParts(more)) == Ended(u, base, Joined(lexemes, more), header)
  {
    hide Run, Step, Spaces, Plains, Opened, BeginLine, EndLine, EndsInColon;
    var v := Lexed(u, base, lexemes);
    var s := EndLine(v, indent, false);
    EndLineKeeps(v, indent);
    if more == [] {
      LastLine(u, indent, base, lexemes, header);
      RunNothing(s);
    } else {
      MiddleLine(u, indent, base, lexemes, more[0].indent);
      LogicalRuns(s, v, more[0].indent, base, more[0].lexemes, more[1..], header);
      assert u.tokens + Plains(lexemes) + Joined(more[0].lexemes, more[1..]) == u.tokens + Joined(lexemes, more);
    }
  }

  /** The lines up to a block inside delimiters. */
  lemma {:induction false} HeadRuns(u: State, base: nat, indent: nat, lexemes: seq<Lexeme>, more: seq<Part>)
    requires Within(u, base) && WellHead(u.delimiters, lexemes, more, base)
    ensures OpenedLines(u.delimiters, lexemes, more).Some? && OpenedLines(u.delimiters, lexemes, more).value != []
    ensures var s := EndLine(Lexed(u, base, lexemes), indent, false);
            && s.indents != [] && s.indents[0] == 0
            && Run(s, PrintParts(more))
               == Headed(u, base, Joined(lexemes, more), OpenedLines(u.delimiters, lexemes, more).value)
    decreases more
  {
    hide Run, Step, Spaces, Plains, Opened, BeginLine, EndsInColon, EndLine;
    var v := Lexed(u, base, lexemes);
    var s := EndLine(v, indent, false);
    EndLineKeeps(v, indent);
    if more == [] {
      HeadLine(u, indent, base, lexemes);
      RunNothing(s);
    } else {
      MiddleLine(u, indent, base, lexemes, more[0].indent);
      CodeLine(s, v, more[0].indent, base, more[0].lexemes);
      var line := Line(Spaces(more[0].indent), Code(more[0].lexemes));
      assert PrintParts(more) == [line] + PrintParts(more[1..]);
      RunFirst(s, line, PrintParts(more[1..]));
      HeadRuns(v, base, more[0].indent, more[0].lexemes, more[1..]);
      assert u.tokens + Plains(lexemes) + Joined(more[0].lexemes, more[1..]) == u.tokens + Joined(lexemes, more);
    }
  }

  lemma HeadLine(u: State, indent: nat, base: nat, lexemes: seq<Lexeme>)
    requires Within(u, base) && lexemes != [] && Opened(u.delimiters, lexemes).Some? && EndsInColon(lexemes)
    requires Opened(u.delimiters, lexemes).value != []
    ensures EndLine(Lexed(u, base, lexemes), indent, false)
         == Headed(u, base, Plains(lexemes), Opened(u.delimiters, lexemes).value)
  {
    hide Opened, Plains;
    LastToken(u.tokens, lexemes);
    PlainsLast(lexemes);
    var none: seq<Layout.Group> := [];
    var group := Group(|Opened(u.delimiters, lexemes).value|, base);
    assert none + [group] == [group];
  }

  /** A statement with the blocks inside its delimiters. */
  lemma {:induction false} LogicalDone(u: State, base: nat, indent: nat, first: seq<Lexeme>, more: seq<Part>,
                                       inserts: seq<Insert>, header: bool)
    requires Within(u, base) && u.indents == Levels(base / 4) && base % 4 == 0
    requires var s := EndLine(Lexed(u, base, first), indent, false); Valid(s) && ActiveHere(s)
    requires WellLogical(u.delimiters, first, more, inserts, base, header)
    ensures Run(EndLine(Lexed(u, base, first), indent, false), PrintParts(more) + PrintInserts(inserts, base))
         == Ended(u, base, Joined(first, more) + InsertTokens(inserts), header)
    decreases inserts
  {
    hide Run, Spaces, Plains, Opened, BeginLine, EndLine, EndsInColon, Print, Bracketed, WellInside, Nesting,
      LineLexemes, WellHead, WellLines, OpenedLines, Valid, ActiveHere, PrintParts, Joined;
    var s := EndLine(Lexed(u, base, first), indent, false);
    if inserts == [] {
      RestRuns(u, base, indent, first, more, header);
      assert PrintParts(more) + PrintInserts(inserts, base) == PrintParts(more);
      assert Joined(first, more) + InsertTokens(inserts) == Joined(first, more);
    } else {
      HeadRuns(u, base, indent, first, more);
      var (d, i, rest) := (OpenedLines(u.delimiters, first, more).value, inserts[0], inserts[1..]);
      RunStaysValid(s, PrintParts(more));
      var tokens := Joined(first, more);
      var h := Headed(u, base, tokens, d);
      InsertRuns(u, base, tokens, d, i);
      var inside := [Newline, Indent] + Bracketed(i.inside) + [Dedent];
      var u2 := u.(tokens := u.tokens + tokens + inside, delimiters := d);
      var lines := Print(i.inside, base + 4) + [Line(Spaces(base), Code(i.first))];
      RunStaysValid(h, lines);
      LogicalDone(u2, base, base, i.first, i.more, rest, header);
      InsertLines(i, base);
      RunAppend(s, PrintParts(more), lines);
      assert PrintParts(more) + PrintInserts(inserts, base)
          == (PrintParts(more) + lines) + (PrintParts(i.more) + PrintInserts(rest, base));
      RunAppend(s, PrintParts(more) + lines, PrintParts(i.more) + PrintInserts(rest, base));
      assert u.tokens + tokens + inside + (Joined(i.first, i.more) + InsertTokens(rest))
          == u.tokens + (tokens + InsertTokens(inserts));
    }
  }

  lemma InsertLines(i: Insert, base: nat)
    ensures PrintLogical(i.first, i.more, base) == [Line(Spaces(base), Code(i.first))] + PrintParts(i.more)
  {
  }

  lemma {:induction false} RunStaysValid(s: State, lines: seq<Line>)
    requires Valid(s) && ActiveHere(s)
    ensures s.indents != [] && s.indents[0] == 0 && Valid(Run(s, lines)) && ActiveHere(Run(s, lines))
  {
    hide Step, Valid, ActiveHere;
    BottomZero(s);
    Grounded(s);
    if lines != [] {
      RunStaysValid(s, lines[..|lines| - 1]);
      StepValid(Run(s, lines[..|lines| - 1]), lines[|lines| - 1]);
    }
  }

  lemma Grounded(s: State)
    requires Valid(s)
    ensures s.indents != []
  {
  }

  // ------------------------------------------------------------------ forests

  lemma FirstWell(open: seq<Bracket>, first: seq<Lexeme>, more: seq<Part>, inserts: seq<Insert>, base: nat,
                  header: bool)
    requires WellLogical(open, first, more, inserts, base, header)
    ensures first != [] && Opened(open, first).Some?
  {
    hide Opened;
  }

  /** The lines of a statement from where it may begin. */
  lemma StatementRuns(s: State, base: nat, first: seq<Lexeme>, more: seq<Part>, inserts: seq<Insert>, header: bool)
    requires Rest(s, base) && WellLogical([], first, more, inserts, base, header)
    ensures s.indents[0] == 0
    ensures var r := Run(s, PrintLogical(first, more, base) + PrintInserts(inserts, base));
            && r == Ended(At(Flush(s, base), s.diagnostics, base), base, Joined(first, more) + InsertTokens(inserts),
                          header)
            && Valid(r) && ActiveHere(r)
  {
    hide Run, Step, Spaces, BeginLine, EndLine, Nesting, WellLogical, Flush, Joined, Opened, PrintParts;
    StartsAt(s, base, false);
    AtValid(s, base);
    LevelFour(s, base);
    FirstWell([], first, more, inserts, base, header);
    var u := At(Flush(s, base), s.diagnostics, base);
    var line := Line(Spaces(base), Code(first));
    CodeLine(s, u, base, base, first);
    StepValid(s, line);
    LogicalDone(u, base, base, first, more, inserts, header);
    RunFirst(s, line, PrintParts(more) + PrintInserts(inserts, base));
    assert PrintLogical(first, more, base) + PrintInserts(inserts, base)
        == [line] + (PrintParts(more) + PrintInserts(inserts, base));
    RunStaysValid(Step(s, line), PrintParts(more) + PrintInserts(inserts, base));
  }

  lemma {:induction false} EntryDone(s: State, e: Entry, base: nat)
    requires Rest(s, base) && WellEntry(e, base)
    ensures s.indents[0] == 0 && Done(s, Run(s, PrintEntry(e, base)), base, BracketedEntry(e))
    decreases e, 2
  {
    hide Run, Nesting, Flush, Joined, WellLogical, Spaces, PrintLogical, Pop;
    match e
    case Remark => DocumentationDone(s, base);
    case Logical(first, more, inserts, body) =>
      var (head, t) := (PrintLogical(first, more, base) + PrintInserts(inserts, base),
                        Joined(first, more) + InsertTokens(inserts));
      StatementRuns(s, base, first, more, inserts, body != []);
      AtValid(s, base);
      if body == [] {
        PlainDone(s, base, t);
        assert head + PrintEntries(body, base + 4) == head;
      } else {
        HeadedDone(s, e, base, head, t);
      }
  }

  /** A statement without a body. */
  lemma PlainDone(s: State, base: nat, t: seq<Tok>)
    requires Rest(s, base)
    requires var r := Ended(At(Flush(s, base), s.diagnostics, base), base, t, false); Valid(r) && ActiveHere(r)
    ensures Done(s, Ended(At(Flush(s, base), s.diagnostics, base), base, t, false), base, t + [Newline])
  {
    hide Nesting, Flush;
    AtValid(s, base);
    var r := Ended(At(Flush(s, base), s.diagnostics, base), base, t, false);
    assert r.indents[base / 4] == base;
    FlushHere(r, base);
    assert Flush(s, base) + t + [Newline] == Flush(s, base) + (t + [Newline]);
  }

  lemma {:induction false} HeadedDone(s: State, e: Entry, base: nat, head: seq<Line>, t: seq<Tok>)
    requires Rest(s, base) && e.Logical? && e.body != [] && WellEntries(e.body, base + 4)
    requires head == PrintLogical(e.first, e.more, base) + PrintInserts(e.inserts, base)
    requires t == Joined(e.first, e.more) + InsertTokens(e.inserts)
    requires s.indents[0] == 0 && Run(s, head) == Ended(At(Flush(s, base), s.diagnostics, base), base, t, true)
    requires Valid(Run(s, head)) && ActiveHere(Run(s, head))
    ensures Done(s, Run(s, PrintEntry(e, base)), base, BracketedEntry(e))
    decreases e, 1
  {
    hide Run, Nesting, Flush, Joined, WellEntries, Spaces, PrintLogical, PrintEntries, BracketedEntries;
    AtValid(s, base);
    LevelFour(s, base);
    var r1 := Run(s, head);
    assert Rest(r1, base + 4) && Flush(r1, base + 4) == r1.tokens + [Indent] by {
      HeadAtRest(r1, base);
    }
    RunAppend(s, head, PrintEntries(e.body, base + 4));
    EntriesDone(r1, e.body, base + 4);
    var r := Run(r1, PrintEntries(e.body, base + 4));
    BodyDone(r, base);
    assert Flush(s, base) + t + [Newline] + [Indent] + BracketedEntries(e.body) + [Dedent]
        == Flush(s, base) + (t + ([Newline, Indent] + BracketedEntries(e.body) + [Dedent]));
  }

  lemma HeadAtRest(r: State, base: nat)
    requires Valid(r) && ActiveHere(r) && r.delimiters == [] && r.grouped == [] && r.pending.None? && r.active.None?
    requires r.expected == Some(base)
    ensures Rest(r, base + 4) && Flush(r, base + 4) == r.tokens + [Indent]
  {
    hide Nesting;
  }

  lemma {:induction false} EntriesDone(s: State, entries: seq<Entry>, base: nat)
    requires Rest(s, base) && WellEntries(entries, base) && (entries != [] || s.expected.None?)
    ensures s.indents[0] == 0 && Done(s, Run(s, PrintEntries(entries, base)), base, BracketedEntries(entries))
    decreases entries, 1
  {
    hide Run, Nesting, Rest, Flush, PrintEntry, BracketedEntry, WellEntry;
    BottomAtRest(s, base);
    if entries == [] {
      RunNothing(s);
      assert Flush(s, base) + [] == Flush(s, base);
    } else {
      assert entries[0] in entries;
      EntryDone(s, entries[0], base);
      var r := Run(s, PrintEntry(entries[0], base));
      RunAppend(s, PrintEntry(entries[0], base), PrintEntries(entries[1..], base));
      EntriesDone(r, entries[1..], base);
      assert Flush(s, base) + BracketedEntry(entries[0]) + BracketedEntries(entries[1..])
          == Flush(s, base) + BracketedEntries(entries);
    }
  }

  /** The layout round trip with blocks inside delimiters: a file that is printed so but for blank and
      comment lines is tokenised to exactly its brackets. */
  lemma GroupsInvert(lines: seq<Line>, entries: seq<Entry>)
    requires WellEntries(entries, 0) && WithoutBlank(lines) == PrintEntries(entries, 0)
    ensures Lex(lines).tokens == BracketedEntries(entries) + [Eof] && Lex(lines).diagnostics == TabbedBlanks(lines)
  {
    hide Run, Nesting, PrintEntries, BracketedEntries, WellEntries, WithoutBlank, TabbedBlanks, Flush, Finish;
    InitialRest();
    BlankIgnored(Initial(), lines);
    EntriesDone(Initial(), entries, 0);
    var r := Run(Initial(), WithoutBlank(lines));
    FinishAtRest(r);
    FinishReported(r, TabbedBlanks(lines));
    assert [] + BracketedEntries(entries) == BracketedEntries(entries);
  }
}
